/**
 * The payload codec seen from the engine: the injected encode and decode
 * functions (abstract here) and the per-block loops of decodeWithKnownType
 * (handlers.go:140-168) and encodeResult (execute.go:61-91), as
 * specification functions.
 */
module Codec {
  import opened Wrappers
  import opened Values

  /** `encode(input any, output *[]byte) error`. */
  type Encoder = Value -> Result<Block, string>

  /** `decode(input []byte, target any) error` filling a fresh instance of the given type. */
  type Decoder = (Block, TypeTag) -> Result<Value, string>

  /** Decoding the blocks of a packet into fresh instances of `tag`, block by block; the first failure wins. */
  function DecodeItems(decode: Option<Decoder>, data: seq<Block>, tag: TypeTag): (r: Result<seq<Value>, Error>)
    ensures r.Ok? ==> |r.value| == |data|
    decreases |data|
  {
    if data == [] then Ok([])
    else
      match DecodeItems(decode, data[..|data| - 1], tag)
      case Err(e) => Err(e)
      case Ok(vs) =>
        if decode.None? then Err(DecoderMissing)
        else
          match decode.value(data[|data| - 1], tag)
          case Err(msg) => Err(External(msg))
          case Ok(v) => Ok(vs + [v])
  }

  /** The raw fallback: every block passed on as it is, in order. */
  function RawItems(data: seq<Block>): (r: seq<Value>)
    ensures |r| == |data|
    ensures forall k :: 0 <= k < |data| ==> r[k] == Bytes(data[k])
  {
    seq(|data|, k requires 0 <= k < |data| => Bytes(data[k]))
  }

  /** The blocks of a raw argument list, the inverse of RawItems. */
  function Blocks(vs: seq<Value>): (r: seq<Block>)
    requires forall k :: 0 <= k < |vs| ==> vs[k].Bytes?
    ensures |r| == |vs|
  {
    seq(|vs|, k requires 0 <= k < |vs| => vs[k].block)
  }

  /** Nothing is lost or reordered by the raw fallback. */
  lemma RawItemsRoundTrip(data: seq<Block>)
    ensures Blocks(RawItems(data)) == data
  {
  }

  /**
   * Decoding succeeds exactly when a decoder is configured (or there is
   * nothing to decode) and every block decodes; it then yields one item per
   * block, in block order.
   */
  lemma {:induction false} DecodePointwise(decode: Option<Decoder>, data: seq<Block>, tag: TypeTag)
    ensures DecodeItems(decode, data, tag).Ok? <==>
              (data == [] || decode.Some?) &&
              forall k :: 0 <= k < |data| ==> decode.value(data[k], tag).Ok?
    ensures DecodeItems(decode, data, tag).Ok? ==>
              forall k :: 0 <= k < |data| ==> DecodeItems(decode, data, tag).value[k] == decode.value(data[k], tag).value
    decreases |data|
  {
    if data != [] {
      var init := data[..|data| - 1];
      DecodePointwise(decode, init, tag);
      assert forall k :: 0 <= k < |init| ==> init[k] == data[k];
    }
  }

  /** With nothing to decode no decoder is needed; with something to decode a missing decoder is the error. */
  lemma {:induction false} DecoderRequiredForData(data: seq<Block>, tag: TypeTag)
    ensures data == [] ==> DecodeItems(None, data, tag) == Ok([])
    ensures data != [] ==> DecodeItems(None, data, tag) == Err(DecoderMissing)
    decreases |data|
  {
    if data != [] {
      DecoderRequiredForData(data[..|data| - 1], tag);
    }
  }

  /** A codec error while decoding is the error of the first block that fails, all earlier blocks decoding. */
  lemma {:induction false} DecodeFailsAtFirstBadBlock(decode: Decoder, data: seq<Block>, tag: TypeTag, k: nat)
    requires k < |data| && decode(data[k], tag).Err?
    requires forall j :: 0 <= j < k ==> decode(data[j], tag).Ok?
    ensures DecodeItems(Some(decode), data, tag) == Err(External(decode(data[k], tag).error))
    decreases |data|
  {
    var init := data[..|data| - 1];
    if k < |data| - 1 {
      assert forall j :: 0 <= j < k ==> init[j] == data[j];
      DecodeFailsAtFirstBadBlock(decode, init, tag, k);
    } else {
      assert forall j :: 0 <= j < |init| ==> init[j] == data[j];
      DecodePointwise(Some(decode), init, tag);
    }
  }

  /**
   * Encoding the elements of a slice result, element by element: the blocks
   * produced so far and the first error. On an error the blocks already
   * produced are kept (encodeResult has already written them to pr.Data).
   */
  function EncodeItems(encode: Encoder, items: seq<Value>): (r: (seq<Block>, Option<Error>))
    ensures |r.0| <= |items|
    ensures r.1.None? ==> |r.0| == |items|
    decreases |items|
  {
    if items == [] then ([], None)
    else
      var (bs, e) := EncodeItems(encode, items[..|items| - 1]);
      if e.Some? then (bs, e)
      else
        match encode(items[|items| - 1])
        case Err(msg) => (bs, Some(External(msg)))
        case Ok(b) => (bs + [b], None)
  }

  /** The blocks produced are the encodings of the leading elements, in element order; with no error, of all of them. */
  lemma {:induction false} EncodePointwise(encode: Encoder, items: seq<Value>)
    ensures var (bs, e) := EncodeItems(encode, items);
            forall k :: 0 <= k < |bs| ==> encode(items[k]).Ok? && bs[k] == encode(items[k]).value
    ensures EncodeItems(encode, items).1.None? <==> forall k :: 0 <= k < |items| ==> encode(items[k]).Ok?
    decreases |items|
  {
    if items != [] {
      var init := items[..|items| - 1];
      EncodePointwise(encode, init);
      assert forall k :: 0 <= k < |init| ==> init[k] == items[k];
    }
  }

  /** On an error, exactly the elements before the first one that fails have been encoded, and the error is that element's. */
  lemma {:induction false} EncodeStopsAtFirstFailure(encode: Encoder, items: seq<Value>, k: nat)
    requires k < |items| && encode(items[k]).Err?
    requires forall j :: 0 <= j < k ==> encode(items[j]).Ok?
    ensures EncodeItems(encode, items).1 == Some(External(encode(items[k]).error))
    ensures |EncodeItems(encode, items).0| == k
    decreases |items|
  {
    var init := items[..|items| - 1];
    if k < |items| - 1 {
      assert forall j :: 0 <= j < k ==> init[j] == items[j];
      EncodeStopsAtFirstFailure(encode, init, k);
    } else {
      assert forall j :: 0 <= j < |init| ==> init[j] == items[j];
      EncodePointwise(encode, init);
    }
  }

  /**
   * encodeResult on a packet result whose Data is `data`: the new Data and
   * the error. A nil result leaves Data alone; a slice gives one block per
   * element; any other value gives exactly one block.
   */
  function EncodeOutcome(encode: Option<Encoder>, out: Outcome, data: seq<Block>): (r: (seq<Block>, Option<Error>))
    requires !out.ErrValue?
    ensures out.Nil? ==> r == (data, None)
    ensures !out.Nil? && encode.None? ==> r == (data, Some(EncoderMissing))
    ensures out.Single? && r.1.None? ==> |r.0| == 1
    ensures out.Many? && r.1.None? ==> |r.0| == |out.items|
  {
    if out.Nil? then (data, None)
    else if encode.None? then (data, Some(EncoderMissing))
    else if out.Many? then EncodeItems(encode.value, out.items)
    else
      match encode.value(out.value)
      case Err(msg) => (data, Some(External(msg)))
      case Ok(b) => ([b], None)
  }

  /** Once a prefix of the blocks fails to decode, the whole packet fails with that error. */
  lemma {:induction false} DecodePrefixFailure(decode: Option<Decoder>, data: seq<Block>, tag: TypeTag, k: nat)
    requires k <= |data| && DecodeItems(decode, data[..k], tag).Err?
    ensures DecodeItems(decode, data, tag) == DecodeItems(decode, data[..k], tag)
    decreases |data| - k
  {
    if k < |data| {
      assert data[..k + 1][..k] == data[..k];
      DecodePrefixFailure(decode, data, tag, k + 1);
    } else {
      assert data[..k] == data;
    }
  }

  /** Once a prefix of the elements fails to encode, encoding the rest changes neither the blocks nor the error. */
  lemma {:induction false} EncodePrefixFailure(encode: Encoder, items: seq<Value>, k: nat)
    requires k <= |items| && EncodeItems(encode, items[..k]).1.Some?
    ensures EncodeItems(encode, items) == EncodeItems(encode, items[..k])
    decreases |items| - k
  {
    if k < |items| {
      assert items[..k + 1][..k] == items[..k];
      EncodePrefixFailure(encode, items, k + 1);
    } else {
      assert items[..k] == items;
    }
  }
}
