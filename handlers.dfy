/**
 * The handler registry (handlers.go:9-72): what a registered handler object
 * offers, the record the engine keeps for it, and the table that
 * registration produces.
 */
module Handlers {
  import opened Wrappers
  import opened Values

  /** A bound CRUD method: `Create(data ...any) any` and its siblings. */
  type Capability = seq<Value> -> Outcome

  /** `ValidateData(action byte, data ...any) error`: None is a nil error, Some(msg) an error with that text. */
  type Validator = (Byte, seq<Value>) -> Option<string>

  /** `AllowedRoles(action byte) []byte`. */
  type RolesProvider = Byte -> seq<Byte>

  /**
   * A handler object as registration discovers it: each optional interface it
   * implements (None where Go's type assertion fails) and its concrete type.
   */
  datatype HandlerObj = HandlerObj(
    create: Option<Capability>,
    read: Option<Capability>,
    update: Option<Capability>,
    delete: Option<Capability>,
    handlerName: Option<string>,
    validateData: Option<Validator>,
    typeOf: TypeTag)

  /** The engine's record of one registered handler (Go's `actionHandler`). */
  datatype Record = Record(
    name: string,
    index: Byte,
    create: Option<Capability>,
    read: Option<Capability>,
    update: Option<Capability>,
    delete: Option<Capability>,
    validateData: Option<Validator>,
    dataType: Option<TypeTag>,
    allowedRoles: Option<RolesProvider>)

  /** Go's zero `actionHandler`: what a table slot holds until registration writes it. */
  const ZeroRecord := Record("", 0, None, None, None, None, None, None, None)

  predicate HasCrud(h: HandlerObj) {
    h.create.Some? || h.read.Some? || h.update.Some? || h.delete.Some?
  }

  predicate Bound(r: Record, a: Byte) {
    CapabilityFor(r, a).Some?
  }

  /** The capability a record has bound for an action code (None also for an unknown code). */
  function CapabilityFor(r: Record, a: Byte): Option<Capability> {
    if a == Create then r.create
    else if a == Read then r.read
    else if a == Update then r.update
    else if a == Delete then r.delete
    else None
  }

  /** The capability slots of a handler object, viewed as a record. */
  function AsRecordCaps(o: HandlerObj): Record {
    ZeroRecord.(create := o.create, read := o.read, update := o.update, delete := o.delete)
  }

  /** `uint8(i)`: the stored index wraps at 256. */
  function IndexOf(i: nat): Byte {
    i % 256
  }

  /** What one iteration of the registration loop makes of the handler at position i: its record, or the error that aborts registration. */
  function Register(i: nat, h: Option<HandlerObj>): (r: Result<Record, Error>)
    // rejections, each naming the offending index or handler
    ensures h.None? ==> r == Err(NilHandler(i))
    ensures h.Some? && HasCrud(h.value) && h.value.handlerName.None? ==> r == Err(MissingName(i))
    ensures h.Some? && HasCrud(h.value) && h.value.handlerName.Some? && h.value.validateData.None?
            ==> r == Err(MissingValidator(h.value.handlerName.value))
    ensures r.Err? <==> h.None? || (HasCrud(h.value) && (h.value.handlerName.None? || h.value.validateData.None?))
    // an accepted handler keeps its position and exactly the capabilities it implements
    ensures r.Ok? ==> r.value.index == IndexOf(i)
    ensures r.Ok? ==> forall a :: Bound(r.value, a) <==> IsAction(a) && CapabilityFor(AsRecordCaps(h.value), a).Some?
    ensures r.Ok? ==> r.value.allowedRoles.None?
    // a handler without CRUD capabilities is kept, inert and unnamed
    ensures h.Some? && !HasCrud(h.value) ==> r.Ok? && r.value.name == "" && r.value.validateData.None?
    // a CRUD handler is named by its provider and validated by its validator
    ensures r.Ok? && HasCrud(h.value) ==> r.value.name == h.value.handlerName.value && r.value.validateData == h.value.validateData
    // the decode type is cached exactly when some CRUD capability is bound
    ensures r.Ok? ==> (r.value.dataType.Some? <==> HasCrud(h.value))
    ensures r.Ok? && r.value.dataType.Some? ==> r.value.dataType.value == h.value.typeOf
  {
    if h.None? then Err(NilHandler(i))
    else
      var o := h.value;
      if !HasCrud(o) then
        Ok(ZeroRecord.(index := IndexOf(i)))
      else if o.handlerName.None? then Err(MissingName(i))
      else if o.validateData.None? then Err(MissingValidator(o.handlerName.value))
      else
        Ok(Record(o.handlerName.value, IndexOf(i), o.create, o.read, o.update, o.delete,
                       o.validateData, Some(o.typeOf), None))
  }

  /** The position of the first handler whose registration fails, or |hs| when none does. */
  function FirstFailure(hs: seq<Option<HandlerObj>>): (k: nat)
    ensures k <= |hs|
    ensures forall j :: 0 <= j < k ==> Register(j, hs[j]).Ok?
    ensures k < |hs| ==> Register(k, hs[k]).Err?
  {
    FirstFailureFrom(hs, 0)
  }

  function FirstFailureFrom(hs: seq<Option<HandlerObj>>, i: nat): (k: nat)
    requires i <= |hs|
    requires forall j :: 0 <= j < i ==> Register(j, hs[j]).Ok?
    ensures i <= k <= |hs|
    ensures forall j :: 0 <= j < k ==> Register(j, hs[j]).Ok?
    ensures k < |hs| ==> Register(k, hs[k]).Err?
    decreases |hs| - i
  {
    if i == |hs| || Register(i, hs[i]).Err? then i else FirstFailureFrom(hs, i + 1)
  }

  /**
   * The table `RegisterHandlers(hs...)` leaves behind: one slot per handler,
   * the records of the handlers before the first failure and zero records
   * from the failing one on.
   */
  function Table(hs: seq<Option<HandlerObj>>): (t: seq<Record>)
    ensures |t| == |hs|
  {
    var k := FirstFailure(hs);
    seq(|hs|, j requires 0 <= j < |hs| => if j < k then Register(j, hs[j]).value else ZeroRecord)
  }

  /** The error `RegisterHandlers(hs...)` returns. */
  function RegistrationError(hs: seq<Option<HandlerObj>>): Option<Error> {
    var k := FirstFailure(hs);
    if k < |hs| then Some(Register(k, hs[k]).error) else None
  }

  /** Registration succeeds exactly when every handler in the list is accepted. */
  lemma RegistrationSucceedsIff(hs: seq<Option<HandlerObj>>)
    ensures RegistrationError(hs).None? <==> forall j :: 0 <= j < |hs| ==> Register(j, hs[j]).Ok?
  {
    var k := FirstFailure(hs);
    if k < |hs| {
      assert Register(k, hs[k]).Err?;
    }
  }

  /** A nil handler anywhere makes registration fail; when every handler before it is accepted, the error names its index. */
  lemma NilHandlerRejected(hs: seq<Option<HandlerObj>>, i: nat)
    requires i < |hs| && hs[i].None?
    ensures RegistrationError(hs).Some?
    ensures (forall j :: 0 <= j < i ==> Register(j, hs[j]).Ok?) ==> RegistrationError(hs) == Some(NilHandler(i))
  {
    var k := FirstFailure(hs);
    assert Register(i, hs[i]).Err?;
    assert k <= i;
    if forall j :: 0 <= j < i ==> Register(j, hs[j]).Ok? {
      assert !(k < i);
    }
  }

  /**
   * After a successful registration the table holds one record per handler,
   * in registration order: the record at slot i is the one built for handler
   * i, and its stored index is i (for the first 256 slots; beyond them the
   * uint8 index wraps).
   */
  lemma DenseTable(hs: seq<Option<HandlerObj>>, i: nat)
    requires RegistrationError(hs).None? && i < |hs|
    ensures Register(i, hs[i]).Ok? && Table(hs)[i] == Register(i, hs[i]).value
    ensures Table(hs)[i].index == i % 256
    ensures i < 256 ==> Table(hs)[i].index == i
  {
    RegistrationSucceedsIff(hs);
  }

  /** A failed registration keeps the records built before the failing handler and zero records from it on. */
  lemma FailedTable(hs: seq<Option<HandlerObj>>, k: nat, j: nat)
    requires k < |hs| && Register(k, hs[k]).Err? && forall m :: 0 <= m < k ==> Register(m, hs[m]).Ok?
    requires j < |hs|
    ensures RegistrationError(hs) == Some(Register(k, hs[k]).error)
    ensures j < k ==> Table(hs)[j] == Register(j, hs[j]).value
    ensures k <= j ==> Table(hs)[j] == ZeroRecord
  {
    var f := FirstFailure(hs);
    assert !(f < k);
    assert !(k < f);
  }

  /**
   * A table of |hs| slots holding the records of the first k handlers and
   * zero records after them, where k is a failing position or |hs|, is the
   * table registration leaves.
   */
  lemma TableFromPrefix(hs: seq<Option<HandlerObj>>, k: nat, t: seq<Record>)
    requires k <= |hs| && |t| == |hs|
    requires forall j :: 0 <= j < k ==> Register(j, hs[j]).Ok? && t[j] == Register(j, hs[j]).value
    requires k < |hs| ==> Register(k, hs[k]).Err?
    requires forall j :: k <= j < |hs| ==> t[j] == ZeroRecord
    ensures FirstFailure(hs) == k
    ensures t == Table(hs)
    ensures RegistrationError(hs) == if k < |hs| then Some(Register(k, hs[k]).error) else None
  {
    var f := FirstFailure(hs);
    assert !(f < k);
    assert !(k < f);
  }
}
