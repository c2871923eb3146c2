/**
 * Properties of the engine that relate several of its operations:
 * registration followed by lookup and dispatch, and the per-packet
 * contract of batch execution.
 */
module EngineProperties {
  import opened Wrappers
  import opened Values
  import opened Packets
  import opened Handlers
  import opened Codec
  import opened Access
  import opened Engine

  /** After a successful registration, id i names handler i: its own name when it has CRUD capabilities, "" when it is inert. */
  lemma RegisteredName(c: CrudP, hs: seq<Option<HandlerObj>>, i: nat)
    requires c.handlers == Table(hs) && RegistrationError(hs).None?
    requires i < |hs| && i < 256
    ensures hs[i].Some?
    ensures c.GetHandlerName(i) == if HasCrud(hs[i].value) then hs[i].value.handlerName.value else ""
  {
    DenseTable(hs, i);
  }

  /** After a successful registration, the id of slot i dispatches to the capabilities of handler i. */
  lemma DispatchReachesRegisteredHandler(c: CrudP, hs: seq<Option<HandlerObj>>, i: nat, a: Byte)
    requires c.handlers == Table(hs) && RegistrationError(hs).None?
    requires i < |hs| && i < 256
    ensures hs[i].Some?
    ensures CapabilityFor(c.handlers[i], a) == (if IsAction(a) then CapabilityFor(AsRecordCaps(hs[i].value), a) else None)
  {
    DenseTable(hs, i);
  }

  /**
   * Past slot 255 the stored `uint8` index wraps: the record at slot i
   * carries index i mod 256, so a single-call route registered for it
   * dispatches to the record of slot i mod 256, a different handler.
   */
  lemma WrappedIndexDispatchesElsewhere(c: CrudP, hs: seq<Option<HandlerObj>>, i: nat)
    requires c.handlers == Table(hs) && RegistrationError(hs).None?
    requires 256 <= i < |hs|
    ensures c.handlers[i].index == i % 256 && c.handlers[i].index != i
    ensures c.handlers[c.handlers[i].index] == Register(i % 256, hs[i % 256]).value
  {
    DenseTable(hs, i);
    DenseTable(hs, i % 256);
  }

  /** The error of the first stage that fails for a packet: decode, then dispatch, then encode. */
  function PacketError(c: CrudP, p: Packet, inject: seq<Value>): Option<Error>
    reads c
  {
    match c.DecodedData(p, p.handlerId)
    case Err(e) => Some(e)
    case Ok(args) =>
      match c.CallHandler(p.handlerId, p.action, inject + args)
      case Err(e) => Some(e)
      case Ok(out) => EncodeOutcome(c.encode, out, p.data).1
  }

  /**
   * A packet result is a Success with "OK" exactly when no stage fails, and
   * otherwise an Error carrying the failing stage's text.
   */
  lemma PacketResultContract(c: CrudP, p: Packet, inject: seq<Value>)
    ensures var pr := c.PacketOutcome(p, inject);
            match PacketError(c, p, inject)
            case None => pr.messageType == SuccessType && pr.message == "OK"
            case Some(e) => pr.messageType == ErrorType && pr.message == Message(e)
  {
  }

  /** A packet for an id outside the table fails at decoding, with the "no handler" text, and keeps its data. */
  lemma UnknownIdPacket(c: CrudP, p: Packet, inject: seq<Value>)
    requires p.handlerId >= |c.handlers|
    ensures c.PacketOutcome(p, inject) == PacketResult(p, ErrorType, "no handler found for id: " + NatToString(p.handlerId))
  {
  }

  /**
   * A decode or dispatch failure leaves the packet exactly as submitted,
   * Data included; so does a nil result, which is a Success.
   */
  lemma UnencodedResultsKeepRequestData(c: CrudP, p: Packet, inject: seq<Value>)
    requires c.DecodedData(p, p.handlerId).Err? ||
             c.CallHandler(p.handlerId, p.action, inject + c.DecodedData(p, p.handlerId).value).Err? ||
             c.CallHandler(p.handlerId, p.action, inject + c.DecodedData(p, p.handlerId).value) == Ok(Nil)
    ensures c.PacketOutcome(p, inject).packet == p
  {
  }

  /** A slice result that encodes becomes one block per element, in element order. */
  lemma SliceResultBlocks(c: CrudP, p: Packet, inject: seq<Value>, items: seq<Value>)
    requires c.DecodedData(p, p.handlerId).Ok?
    requires c.CallHandler(p.handlerId, p.action, inject + c.DecodedData(p, p.handlerId).value) == Ok(Many(items))
    requires c.PacketOutcome(p, inject).messageType == SuccessType
    ensures c.encode.Some?
    ensures var data := c.PacketOutcome(p, inject).packet.data;
            |data| == |items| && forall k :: 0 <= k < |items| ==> c.encode.value(items[k]).Ok? && data[k] == c.encode.value(items[k]).value
  {
    if c.encode.Some? {
      EncodePointwise(c.encode.value, items);
    }
  }

  /** A single (non-slice) result that encodes becomes exactly one block. */
  lemma SingleResultBlock(c: CrudP, p: Packet, inject: seq<Value>, v: Value)
    requires c.DecodedData(p, p.handlerId).Ok?
    requires c.CallHandler(p.handlerId, p.action, inject + c.DecodedData(p, p.handlerId).value) == Ok(Single(v))
    requires c.PacketOutcome(p, inject).messageType == SuccessType
    ensures c.encode.Some? && c.PacketOutcome(p, inject).packet.data == [c.encode.value(v).value]
  {
  }

  /** A non-nil result with no encoder configured is an error of that packet. */
  lemma ResultWithoutEncoder(c: CrudP, p: Packet, inject: seq<Value>)
    requires c.encode.None? && c.DecodedData(p, p.handlerId).Ok?
    requires var call := c.CallHandler(p.handlerId, p.action, inject + c.DecodedData(p, p.handlerId).value);
             call.Ok? && !call.value.Nil?
    ensures c.PacketOutcome(p, inject) == PacketResult(p, ErrorType, "encode function not configured")
  {
  }

  /**
   * When the k-th element of a slice result fails to encode, the packet is
   * an Error whose Data holds the k blocks encoded before it.
   */
  lemma SliceEncodeFailureKeepsPrefix(c: CrudP, p: Packet, inject: seq<Value>, items: seq<Value>, k: nat)
    requires c.encode.Some? && c.DecodedData(p, p.handlerId).Ok?
    requires c.CallHandler(p.handlerId, p.action, inject + c.DecodedData(p, p.handlerId).value) == Ok(Many(items))
    requires k < |items| && c.encode.value(items[k]).Err?
    requires forall j :: 0 <= j < k ==> c.encode.value(items[j]).Ok?
    ensures var pr := c.PacketOutcome(p, inject);
            pr.messageType == ErrorType && pr.message == c.encode.value(items[k]).error
    ensures var data := c.PacketOutcome(p, inject).packet.data;
            |data| == k && forall j :: 0 <= j < k ==> data[j] == c.encode.value(items[j]).value
  {
    EncodeStopsAtFirstFailure(c.encode.value, items, k);
    EncodePointwise(c.encode.value, items);
  }

  /**
   * A handler "users" with create and read and a validator that accepts the
   * call: an unknown action code and the unimplemented delete give the two
   * distinct errors, create and read reach their functions, and an id past
   * the table is refused.
   */
  lemma UsersScenario(c: CrudP, create: Capability, read: Capability, validate: Validator, x: Byte, args: seq<Value>)
    requires c.handlers == Table([Some(HandlerObj(Some(create), Some(read), None, None, Some("users"), Some(validate), "User"))])
    requires !IsAction(x) && validate(x, args).None? && validate(Delete, args).None?
    requires validate(Create, args).None? && create(args).Single?
    requires validate(Read, args).None? && !read(args).ErrValue?
    ensures c.CallHandler(0, x, args) == Err(UnknownAction(x, "users"))
    ensures c.CallHandler(0, Delete, args) == Err(NotImplemented(Delete, "users"))
    ensures Message(c.CallHandler(0, x, args).error) != Message(c.CallHandler(0, Delete, args).error)
    ensures c.CallHandler(0, Create, args) == Ok(create(args))
    ensures c.CallHandler(0, Read, args) == Ok(read(args))
    ensures c.CallHandler(99, Read, args) == Err(NoHandler(99))
  {
    var hs := [Some(HandlerObj(Some(create), Some(read), None, None, Some("users"), Some(validate), "User"))];
    RegistrationSucceedsIff(hs);
    DenseTable(hs, 0);
    UnknownDiffersFromNotImplemented(x, Delete, "users", "users");
  }

  /** A wildcard policy admits any caller with a role and refuses, with the generic error, a caller with none. */
  lemma WildcardPolicy(c: CrudP, h: Record, a: Byte, args: seq<Value>)
    requires !c.devMode && h.allowedRoles.Some? && h.allowedRoles.value(a) == [Wildcard]
    ensures |c.UserRoles(args)| > 0 ==> c.DoAccessCheck(h, a, args) == CheckResult(None, None)
    ensures |c.UserRoles(args)| == 0 ==> c.DoAccessCheck(h, a, args).err == Some(AccessDenied)
  {
    if |c.UserRoles(args)| > 0 {
      WildcardAdmitsAuthenticated(c.UserRoles(args), [Wildcard]);
    } else {
      AnonymousNeverAdmitted([Wildcard]);
    }
  }
}
