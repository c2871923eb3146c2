/**
 * The values that flow through the engine: bytes and byte blocks, the opaque
 * `any` arguments and results of handler capabilities, and the errors the
 * engine reports (with the text Go's `err.Error()` would give).
 */
module Values {

  /** Go's `byte` / `uint8`. */
  type Byte = b: int | 0 <= b < 256

  /** One encoded argument or result: a Go `[]byte`. */
  type Block = seq<Byte>

  /** The concrete Go type a registered handler is decoded into (what `reflect.TypeOf` caches). */
  type TypeTag = string

  /** Action codes carried in packets. */
  const Create: Byte := 'c' as int
  const Read: Byte := 'r' as int
  const Update: Byte := 'u' as int
  const Delete: Byte := 'd' as int

  predicate IsAction(a: Byte) {
    a == Create || a == Read || a == Update || a == Delete
  }

  /** A Go `any` passed to or returned by a handler. The engine never looks inside. */
  datatype Value =
    | Injected(token: nat)            // an injected transport value: context.Context, *http.Request
    | Text(text: string)              // a string argument, such as the route path
    | Bytes(block: Block)             // a raw data block passed through undecoded
    | Instance(tag: TypeTag, id: nat) // an object built by the decoder or by a handler

  /**
   * What a capability function returns, classified the way the engine looks at it:
   * nil, a value that is itself an error, a slice (one block per element when
   * encoded) or any other single value.
   */
  datatype Outcome =
    | Nil
    | ErrValue(msg: string)
    | Many(items: seq<Value>)
    | Single(value: Value)

  /** An opaque callback supplied by the embedding program (a logger, a denial notifier). */
  datatype Sink = Sink(id: nat)

  /** Every error the core reports. `External` carries an error produced by handler or codec code. */
  datatype Error =
    | NilHandler(index: nat)
    | MissingName(index: nat)
    | MissingValidator(name: string)
    | NoHandler(id: Byte)
    | UnknownAction(action: Byte, name: string)
    | NotImplemented(action: Byte, name: string)
    | DecoderMissing
    | EncoderMissing
    | AccessDenied
    | RequestNil
    | External(msg: string)

  /** Decimal rendering of a natural number, as `%d` prints it. */
  function NatToString(n: nat): (s: string)
    ensures |s| > 0
    ensures forall k :: 0 <= k < |s| ==> '0' <= s[k] <= '9'
    decreases n
  {
    if n < 10 then [Digit(n)] else NatToString(n / 10) + [Digit(n % 10)]
  }

  function Digit(d: nat): (c: char)
    requires d < 10
    ensures '0' <= c <= '9'
  {
    ('0' as int + d) as char
  }

  /** `%c` of a byte. */
  function CharOf(b: Byte): char {
    b as char
  }

  /**
   * The text of an error, as the messages in handlers.go, execute.go and
   * http_stlib.go read. An error produced by handler or codec code keeps its
   * own text; every error the engine raises itself has a non-empty one.
   */
  function Message(e: Error): (m: string)
    ensures e.External? ==> m == e.msg
    ensures !e.External? ==> |m| > 0
  {
    match e
    case NilHandler(i) => "handler " + NatToString(i) + " is nil"
    case MissingName(i) => "missing interface: 'HandlerName() string' for handler at index " + NatToString(i)
    case MissingValidator(name) => "missing interface: 'ValidateData(action byte, data ...any) error' for handler: " + name
    case NoHandler(id) => "no handler found for id: " + NatToString(id)
    case UnknownAction(a, name) => "unknown action '" + [CharOf(a)] + "' for handler: " + name
    case NotImplemented(a, name) => "action '" + [CharOf(a)] + "' not implemented for handler: " + name
    case DecoderMissing => "decode function not configured"
    case EncoderMissing => "encode function not configured"
    case AccessDenied => "access denied"
    case RequestNil => "request is nil"
    case External(msg) => msg
  }

  /** "unknown action" and "not implemented" are told apart by their texts, whatever the action and name. */
  lemma UnknownDiffersFromNotImplemented(a: Byte, b: Byte, n: string, m: string)
    ensures Message(UnknownAction(a, n)) != Message(NotImplemented(b, m))
  {
    assert Message(UnknownAction(a, n))[0] == 'u';
    assert Message(NotImplemented(b, m))[0] == 'a';
  }

  /** The error text for an unknown id names that id: distinct ids give distinct texts. */
  lemma NoHandlerMessageNamesId(x: Byte, y: Byte)
    requires x != y
    ensures Message(NoHandler(x)) != Message(NoHandler(y))
  {
    var p := "no handler found for id: ";
    assert Message(NoHandler(x)) == p + NatToString(x);
    assert Message(NoHandler(y)) == p + NatToString(y);
    NatToStringInjective(x, y);
    assert (p + NatToString(x))[|p|..] == NatToString(x);
    assert (p + NatToString(y))[|p|..] == NatToString(y);
  }

  lemma {:induction false} NatToStringInjective(x: nat, y: nat)
    requires x != y
    ensures NatToString(x) != NatToString(y)
    decreases x
  {
    if x < 10 && y < 10 {
    } else if x < 10 || y < 10 {
      if x >= 10 { assert |NatToString(x / 10)| > 0; } else { assert |NatToString(y / 10)| > 0; }
    } else if x % 10 != y % 10 {
      var sx, sy := NatToString(x), NatToString(y);
      assert sx[|sx| - 1] == Digit(x % 10);
      assert sy[|sy| - 1] == Digit(y % 10);
    } else {
      NatToStringInjective(x / 10, y / 10);
      var sx, sy := NatToString(x / 10), NatToString(y / 10);
      assert (sx + [Digit(x % 10)])[..|sx|] == sx;
      assert (sy + [Digit(y % 10)])[..|sy|] == sy;
    }
  }
}
