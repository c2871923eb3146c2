/**
 * The engine state and its operations: construction and logging
 * (crudp.go), registration and dispatch (handlers.go), batch execution
 * (execute.go) and the server-side access check, route registration and
 * single-call assembly (http_stlib.go).
 */
module Engine {
  import opened Wrappers
  import opened Values
  import opened Packets
  import opened Handlers
  import opened Codec
  import opened Access
  import opened Routes

  /** `getUserRoles(data ...any) []byte`: the caller's roles, read from the call's arguments. */
  type RoleExtractor = seq<Value> -> seq<Byte>

  /** The installed logger: never nil, a no-op by default. */
  datatype Logger = NoOp | LogTo(sink: Sink)

  /** A call of the access-denied notifier. */
  datatype Notice = Notice(to: Sink, event: DenialEvent)

  /** What `doAccessCheck` returns, with the notifier call it makes. */
  datatype CheckResult = CheckResult(err: Option<Error>, notified: Option<Notice>)

  /** An `http.Error` reply of the single-call route. */
  datatype HttpError = HttpError(status: nat, text: string)

  const StatusInternalServerError: nat := 500

  /** Message-type codes written by the engine. */
  const ErrorType: Byte := Code(MessageType.Error)
  const SuccessType: Byte := Code(MessageType.Success)

  /** The empty packet `&Packet{Data: data}` that handleSingle decodes. */
  function DataPacket(data: seq<Block>): Packet {
    Packet(0, 0, "", data)
  }

  class CrudP {
    var encode: Option<Encoder>
    var decode: Option<Decoder>
    var handlers: seq<Record>
    var log: Logger
    var devMode: bool
    var getUserRoles: Option<RoleExtractor>
    var accessDeniedHandler: Option<Sink>
    /** Whether the access-check hook has been installed (`RegisterRoutes`). */
    var accessCheck: bool

    /** `New(encode, decode)`: exactly these codecs, an empty table, a no-op logger. */
    constructor New(encode: Option<Encoder>, decode: Option<Decoder>)
      ensures this.encode == encode && this.decode == decode
      ensures handlers == [] && log == NoOp
      ensures !devMode && getUserRoles.None? && accessDeniedHandler.None? && !accessCheck
    {
      this.encode := encode;
      this.decode := decode;
      handlers := [];
      log := NoOp;
      devMode := false;
      getUserRoles := None;
      accessDeniedHandler := None;
      accessCheck := false;
    }

    /** `SetLog`: nil installs the no-op logger, anything else is installed as given; no other field changes. */
    method SetLog(f: Option<Sink>)
      modifies this`log
      ensures log == if f.None? then NoOp else LogTo(f.value)
    {
      if f.None? {
        log := NoOp;
        return;
      }
      log := LogTo(f.value);
    }

    /**
     * `RegisterHandlers`: the table is replaced by one of |hs| slots, filled
     * in order until the first handler that is rejected.
     */
    method RegisterHandlers(hs: seq<Option<HandlerObj>>) returns (err: Option<Error>)
      modifies this`handlers
      ensures handlers == Table(hs)
      ensures err == RegistrationError(hs)
    {
      handlers := seq(|hs|, _ => ZeroRecord);
      var i := 0;
      while i < |hs|
        invariant 0 <= i <= |hs| && |handlers| == |hs|
        invariant forall j :: 0 <= j < i ==> Register(j, hs[j]).Ok? && handlers[j] == Register(j, hs[j]).value
        invariant forall j :: i <= j < |hs| ==> handlers[j] == ZeroRecord
      {
        if hs[i].None? {
          TableFromPrefix(hs, i, handlers);
          return Some(NilHandler(i));
        }
        var h := hs[i].value;
        var ah := ZeroRecord.(index := IndexOf(i));

        var hasCrud := false;
        if h.create.Some? {
          ah := ah.(create := h.create);
          hasCrud := true;
        }
        if h.read.Some? {
          ah := ah.(read := h.read);
          hasCrud := true;
        }
        if h.update.Some? {
          ah := ah.(update := h.update);
          hasCrud := true;
        }
        if h.delete.Some? {
          ah := ah.(delete := h.delete);
          hasCrud := true;
        }

        if hasCrud {
          if h.handlerName.None? {
            TableFromPrefix(hs, i, handlers);
            return Some(MissingName(i));
          }
          ah := ah.(name := h.handlerName.value);
          if h.validateData.Some? {
            ah := ah.(validateData := h.validateData);
          } else {
            TableFromPrefix(hs, i, handlers);
            return Some(MissingValidator(ah.name));
          }
          ah := ah.(dataType := Some(h.typeOf));
        }

        handlers := handlers[i := ah];
        i := i + 1;
      }
      TableFromPrefix(hs, |hs|, handlers);
      return None;
    }

    /** `GetHandlerName`: the registered name, or "" for an id outside the table. */
    function GetHandlerName(id: Byte): (name: string)
      reads this
      ensures id >= |handlers| ==> name == ""
      ensures id < |handlers| ==> name == handlers[id].name
    {
      if id >= |handlers| then "" else handlers[id].name
    }

    /** The handler's validator accepts the call (a record without validator accepts everything). */
    predicate Validates(h: Record, action: Byte, args: seq<Value>) {
      h.validateData.None? || h.validateData.value(action, args).None?
    }

    /**
     * `CallHandler`: bounds check, mandatory validation, then exactly the
     * capability the action names; its nil result is "no data" and its
     * in-band error result is the call's error.
     */
    function CallHandler(id: Byte, action: Byte, args: seq<Value>): (r: Result<Outcome, Error>)
      reads this
      // an unknown id fails before anything runs
      ensures id >= |handlers| ==> r == Err(NoHandler(id))
      // a validation error is returned as it is, before any capability
      ensures id < |handlers| && !Validates(handlers[id], action, args) ==>
                r == Err(External(handlers[id].validateData.value(action, args).value))
      // an action code outside c/r/u/d and a known action with nothing bound are distinct errors
      ensures id < |handlers| && Validates(handlers[id], action, args) && !IsAction(action) ==>
                r == Err(UnknownAction(action, handlers[id].name))
      ensures id < |handlers| && Validates(handlers[id], action, args) && IsAction(action) && !Bound(handlers[id], action) ==>
                r == Err(NotImplemented(action, handlers[id].name))
      // a bound capability's result: an error value becomes the error, anything else (nil included) is returned unchanged
      ensures id < |handlers| && Validates(handlers[id], action, args) && Bound(handlers[id], action) ==>
                var out := CapabilityFor(handlers[id], action).value(args);
                r == if out.ErrValue? then Err(External(out.msg)) else Ok(out)
      ensures r.Ok? <==> id < |handlers| && Validates(handlers[id], action, args) && Bound(handlers[id], action)
                              && !CapabilityFor(handlers[id], action).value(args).ErrValue?
    {
      if id >= |handlers| then Err(NoHandler(id))
      else
        var handler := handlers[id];
        if handler.validateData.Some? && handler.validateData.value(action, args).Some? then
          Err(External(handler.validateData.value(action, args).value))
        else
          var f :=
            if action == Create then Some(handler.create)
            else if action == Read then Some(handler.read)
            else if action == Update then Some(handler.update)
            else if action == Delete then Some(handler.delete)
            else None;
          if f.None? then Err(UnknownAction(action, handler.name))
          else if f.value.None? then Err(NotImplemented(action, handler.name))
          else
            var result := f.value.value(args);
            if result.Nil? then Ok(Nil)
            else if result.ErrValue? then Err(External(result.msg))
            else Ok(result)
    }

    /** What `decodeWithKnownType(p, id)` yields. */
    function DecodedData(p: Packet, id: Byte): (r: Result<seq<Value>, Error>)
      reads this
      ensures id >= |handlers| ==> r == Err(NoHandler(id))
      // a record without a cached type receives the raw blocks
      ensures id < |handlers| && handlers[id].dataType.None? ==> r == Ok(RawItems(p.data))
      // one argument per block; only a typed record with data can fail
      ensures r.Ok? ==> |r.value| == |p.data|
      ensures r.Err? && id < |handlers| ==> handlers[id].dataType.Some? && |p.data| > 0
    {
      if id >= |handlers| then Err(NoHandler(id))
      else if handlers[id].dataType.None? then Ok(RawItems(p.data))
      else DecodeItems(decode, p.data, handlers[id].dataType.value)
    }

    /** `decodeWithKnownType`: one item per block, decoded into the handler's cached type, or the raw blocks when none is cached. */
    method DecodeWithKnownType(p: Packet, id: Byte) returns (r: Result<seq<Value>, Error>)
      ensures r == DecodedData(p, id)
    {
      if id >= |handlers| {
        return Err(NoHandler(id));
      }
      var handler := handlers[id];
      if handler.dataType.None? {
        var raw := DecodeWithRawBytes(p);
        assert raw == RawItems(p.data);
        return Ok(raw);
      }
      var tag := handler.dataType.value;
      var decoded: seq<Value> := [];
      var k := 0;
      while k < |p.data|
        invariant 0 <= k <= |p.data|
        invariant DecodeItems(decode, p.data[..k], tag) == Ok(decoded)
      {
        assert p.data[..k + 1][..k] == p.data[..k];
        if decode.None? {
          DecodePrefixFailure(decode, p.data, tag, k + 1);
          return Err(DecoderMissing);
        }
        var item := decode.value(p.data[k], tag);
        if item.Err? {
          DecodePrefixFailure(decode, p.data, tag, k + 1);
          return Err(External(item.error));
        }
        decoded := decoded + [item.value];
        k := k + 1;
      }
      assert p.data[..k] == p.data;
      return Ok(decoded);
    }

    /** `decodeWithRawBytes`: every block, unchanged and in order. */
    method DecodeWithRawBytes(p: Packet) returns (r: seq<Value>)
      ensures |r| == |p.data|
      ensures forall k :: 0 <= k < |p.data| ==> r[k] == Bytes(p.data[k])
    {
      r := [];
      var k := 0;
      while k < |p.data|
        invariant 0 <= k <= |p.data| && |r| == k
        invariant forall j :: 0 <= j < k ==> r[j] == Bytes(p.data[j])
      {
        r := r + [Bytes(p.data[k])];
        k := k + 1;
      }
    }

    /**
     * `encodeResult(&pr, result)`: only Data changes, and it becomes what
     * EncodeOutcome gives (including the blocks written before an element
     * failed to encode).
     */
    method EncodeResult(pr: PacketResult, result: Outcome) returns (pr': PacketResult, err: Option<Error>)
      requires !result.ErrValue?
      ensures pr' == pr.(packet := pr.packet.(data := pr'.packet.data))
      ensures (pr'.packet.data, err) == EncodeOutcome(encode, result, pr.packet.data)
    {
      pr' := pr;
      if result.Nil? {
        return pr', None;
      }
      if encode.None? {
        return pr', Some(EncoderMissing);
      }
      var enc := encode.value;
      if result.Many? {
        var items := result.items;
        pr' := pr'.(packet := pr'.packet.(data := []));
        var k := 0;
        while k < |items|
          invariant 0 <= k <= |items|
          invariant pr' == pr.(packet := pr.packet.(data := pr'.packet.data))
          invariant EncodeItems(enc, items[..k]) == (pr'.packet.data, None)
        {
          assert items[..k + 1][..k] == items[..k];
          var encoded := enc(items[k]);
          if encoded.Err? {
            EncodePrefixFailure(enc, items, k + 1);
            return pr', Some(External(encoded.error));
          }
          pr' := pr'.(packet := pr'.packet.(data := pr'.packet.data + [encoded.value]));
          k := k + 1;
        }
        assert items[..k] == items;
        return pr', None;
      }
      var encoded := enc(result.value);
      if encoded.Err? {
        return pr', Some(External(encoded.error));
      }
      pr' := pr'.(packet := pr'.packet.(data := [encoded.value]));
      return pr', None;
    }

    /** What `executeSingle(p)` returns, given the injected arguments that precede the payload. */
    function PacketOutcome(p: Packet, inject: seq<Value>): (pr: PacketResult)
      reads this
      // the result echoes the packet's addressing
      ensures pr.packet.action == p.action && pr.packet.handlerId == p.handlerId && pr.packet.reqId == p.reqId
      // it is an error or a success, and a success always says "OK"
      ensures pr.messageType == ErrorType || pr.messageType == SuccessType
      ensures pr.messageType == SuccessType ==> pr.message == "OK"
      // a decode failure is reported on the packet as submitted
      ensures DecodedData(p, p.handlerId).Err? ==>
                pr == PacketResult(p, ErrorType, Message(DecodedData(p, p.handlerId).error))
    {
      var base := PacketResult(p, 0, "");
      match DecodedData(p, p.handlerId)
      case Err(e) => base.(messageType := ErrorType, message := Message(e))
      case Ok(args) =>
        match CallHandler(p.handlerId, p.action, inject + args)
        case Err(e) => base.(messageType := ErrorType, message := Message(e))
        case Ok(out) =>
          var (data, err) := EncodeOutcome(encode, out, p.data);
          var pr := base.(packet := p.(data := data));
          if err.Some? then pr.(messageType := ErrorType, message := Message(err.value))
          else pr.(messageType := SuccessType, message := "OK")
    }

    /** `executeSingle`: decode, dispatch, encode; the first stage that fails gives the packet its error. */
    method ExecuteSingle(p: Packet, inject: seq<Value>) returns (pr: PacketResult)
      ensures pr == PacketOutcome(p, inject)
    {
      pr := PacketResult(p, 0, "");

      var decoded := DecodeWithKnownType(p, p.handlerId);
      if decoded.Err? {
        pr := pr.(messageType := ErrorType, message := Message(decoded.error));
        return;
      }

      var result := CallHandler(p.handlerId, p.action, inject + decoded.value);
      if result.Err? {
        pr := pr.(messageType := ErrorType, message := Message(result.error));
        return;
      }

      var err;
      pr, err := EncodeResult(pr, result.value);
      if err.Some? {
        pr := pr.(messageType := ErrorType, message := Message(err.value));
        return;
      }

      pr := pr.(messageType := SuccessType, message := "OK");
    }

    /**
     * `Execute`: a nil request is the only failure of the whole batch;
     * otherwise one result per packet, in submission order, each computed
     * from its own packet alone.
     */
    method Execute(req: Option<BatchRequest>, inject: seq<Value>) returns (r: Result<BatchResponse, Error>)
      ensures req.None? ==> r == Err(RequestNil)
      ensures req.Some? ==> r.Ok? && |r.value.results| == |req.value.packets|
      ensures req.Some? ==> forall k :: 0 <= k < |req.value.packets| ==>
                r.value.results[k] == PacketOutcome(req.value.packets[k], inject)
    {
      if req.None? {
        return Err(RequestNil);
      }
      var packets := req.value.packets;
      var results: seq<PacketResult> := [];
      var k := 0;
      while k < |packets|
        invariant 0 <= k <= |packets| && |results| == k
        invariant forall j :: 0 <= j < k ==> results[j] == PacketOutcome(packets[j], inject)
      {
        var result := ExecuteSingle(packets[k], inject);
        results := results + [result];
        k := k + 1;
      }
      return Ok(BatchResponse(results));
    }

    /** The caller's roles: those the configured extractor reads from the arguments, or none. */
    function UserRoles(args: seq<Value>): (roles: seq<Byte>)
      reads this
      ensures getUserRoles.None? ==> roles == []
      ensures getUserRoles.Some? ==> roles == getUserRoles.value(args)
    {
      if getUserRoles.Some? then getUserRoles.value(args) else []
    }

    /**
     * `doAccessCheck`: dev mode and handlers without an allowed-roles
     * provider pass; otherwise the caller passes iff hasAnyRole admits them.
     * A denial is the generic "access denied" error, and calls the notifier,
     * when one is set, with the full context.
     */
    function DoAccessCheck(h: Record, action: Byte, args: seq<Value>): (r: CheckResult)
      reads this
      ensures devMode || h.allowedRoles.None? ==> r == CheckResult(None, None)
      ensures r.err.None? <==> devMode || h.allowedRoles.None? || HasAnyRole(UserRoles(args), h.allowedRoles.value(action))
      ensures r.err.Some? ==> r.err.value == AccessDenied
      ensures r.notified.Some? <==> r.err.Some? && accessDeniedHandler.Some?
      ensures r.notified.Some? ==>
                var allowed := h.allowedRoles.value(action);
                var user := UserRoles(args);
                r.notified.value == Notice(accessDeniedHandler.value,
                                           DenialEvent(h.name, action, user, allowed, DenialMessage(allowed, user)))
    {
      if devMode || h.allowedRoles.None? then CheckResult(None, None)
      else
        var userRoles := UserRoles(args);
        var allowedRoles := h.allowedRoles.value(action);
        if !HasAnyRole(userRoles, allowedRoles) then
          var errMsg := DenialMessage(allowedRoles, userRoles);
          var notice :=
            if accessDeniedHandler.Some? then
              Some(Notice(accessDeniedHandler.value, DenialEvent(h.name, action, userRoles, allowedRoles, errMsg)))
            else None;
          CheckResult(Some(AccessDenied), notice)
        else CheckResult(None, None)
    }

    /**
     * `RegisterRoutes`: installs the access-check hook, then the batch
     * endpoint followed by one route per bound capability of each record,
     * in table order.
     */
    method RegisterRoutes() returns (routes: seq<Route>)
      modifies this`accessCheck
      ensures accessCheck
      ensures routes == [BatchRoute] + RoutesFor(handlers)
      // "POST /batch" first, then `METHOD /name/{path...}` per bound capability
      ensures Pattern(routes[0]) == "POST /batch"
      ensures forall k :: 1 <= k < |routes| ==>
                routes[k].ActionRoute? && Pattern(routes[k]) == MethodOf(routes[k].action) + " /" + routes[k].record.name + "/{path...}"
    {
      accessCheck := true;
      var table := handlers;
      routes := [BatchRoute];
      var i := 0;
      while i < |table|
        invariant 0 <= i <= |table| && accessCheck
        invariant routes == [BatchRoute] + RoutesFor(table[..i])
      {
        var added := RecordRoutesOf(table[i]);
        RoutesForExtend(table, i);
        routes := routes + added;
        i := i + 1;
      }
      assert table[..i] == table;
      forall k | 1 <= k < |routes|
        ensures routes[k].ActionRoute? && Pattern(routes[k]) == MethodOf(routes[k].action) + " /" + routes[k].record.name + "/{path...}"
      {
        assert routes[k] == RoutesFor(table)[k - 1];
        RoutePattern(table, routes[k]);
      }
    }
  
    /**
     * `handleSingle` after the request body has been read and decoded into
     * `req`: decode the payload for the route's record, call it with the
     * injected context and request, the path when non-empty and then the
     * payload, and build the response to encode (or the http.Error reply).
     */
    method HandleSingle(h: Record, action: Byte, path: string, req: Request, ctx: Value, request: Value)
      returns (r: Result<Response, HttpError>)
      // the payload's decode error is an internal server error
      ensures var dec := DecodedData(DataPacket(req.data), h.index);
              dec.Err? ==> r == Err(HttpError(StatusInternalServerError, Message(dec.error)))
      // no encoder: no response can be written
      ensures encode.None? ==> r.Err? && r.error.status == StatusInternalServerError
      // a response echoes the request id and is an error or a success
      ensures r.Ok? ==> r.value.reqId == req.reqId && (r.value.messageType == ErrorType || r.value.messageType == SuccessType)
      ensures var dec := DecodedData(DataPacket(req.data), h.index);
              dec.Ok? && encode.Some? ==>
                var call := CallHandler(h.index, action, SingleCallArgs(ctx, request, path, dec.value));
                // a failed call: Error with the error's text and no data
                (call.Err? ==> r == Ok(Response(req.reqId, [], ErrorType, Message(call.error)))) &&
                // a nil result: Success with no data
                (call == Ok(Nil) ==> r == Ok(Response(req.reqId, [], SuccessType, "OK"))) &&
                // any other result: Success with its encoding, or an internal error if encoding fails
                (call.Ok? && !call.value.Nil? ==>
                   var (data, err) := EncodeOutcome(encode, call.value, []);
                   r == if err.Some? then Err(HttpError(StatusInternalServerError, Message(err.value)))
                        else Ok(Response(req.reqId, data, SuccessType, "OK")))
    {
      var decoded := DecodeWithKnownType(DataPacket(req.data), h.index);
      if decoded.Err? {
        return Err(HttpError(StatusInternalServerError, Message(decoded.error)));
      }

      var inject := [ctx, request];
      if path != "" {
        inject := inject + [Text(path)];
      }
      var allData := inject + decoded.value;
      assert allData == SingleCallArgs(ctx, request, path, decoded.value);

      var result := CallHandler(h.index, action, allData);

      var resp := Response(req.reqId, [], 0, "");
      if result.Err? {
        resp := resp.(messageType := ErrorType, message := Message(result.error));
      } else {
        resp := resp.(messageType := SuccessType, message := "OK");
        if !result.value.Nil? {
          var pr, err := EncodeResult(PacketResult(DataPacket([]), 0, ""), result.value);
          if err.Some? {
            return Err(HttpError(StatusInternalServerError, Message(err.value)));
          }
          resp := resp.(data := pr.packet.data);
        }
      }

      if encode.None? {
        return Err(HttpError(StatusInternalServerError, Message(EncoderMissing)));
      }
      return Ok(resp);
    }

    /** The routes one record gets, in the order the source registers them: POST, GET, PUT, DELETE, each only if bound. */
    static method RecordRoutesOf(h: Record) returns (added: seq<Route>)
      ensures added == RecordRoutes(h)
    {
      added := [];
      if h.create.Some? {
        added := added + [ActionRoute("POST", h.name, h, Create)];
      }
      assert added == AddRoute([], h, Create);
      ghost var before := added;
      if h.read.Some? {
        added := added + [ActionRoute("GET", h.name, h, Read)];
      }
      assert added == AddRoute(before, h, Read);
      before := added;
      if h.update.Some? {
        added := added + [ActionRoute("PUT", h.name, h, Update)];
      }
      assert added == AddRoute(before, h, Update);
      before := added;
      if h.delete.Some? {
        added := added + [ActionRoute("DELETE", h.name, h, Delete)];
      }
      assert added == AddRoute(before, h, Delete);
    }
  }
}
