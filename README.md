# crudp dispatch engine — a Dafny model

crudp is a Go library that runs CRUD operations through a shared handler
table. The same table serves two paths. The batch path takes a
`BatchRequest` of packets, each packet naming an action (`c`, `r`, `u`,
`d`), a handler id and encoded data blocks, and answers with one
`PacketResult` per packet. The HTTP path registers
`METHOD /name/{path...}` routes, one per implemented capability, and answers
each single call with a `Response`.

This project models the engine's core:

- handler registration into a table indexed by position;
- dispatch by id and action, with mandatory validation;
- per-packet decode, dispatch and encode;
- batch execution;
- the server-side role check;
- route selection;
- single-call argument and response assembly.

It proves what these operations promise.

Modules:

- `Wrappers`: Option and Result.
- `Values`: bytes, blocks, opaque `any` values, capability outcomes, and the error kinds with their exact texts.
- `Packets`: the wire datatypes and message-type codes.
- `Handlers`: handler objects, table records, and registration as functions.
- `Codec`: the per-block decode and encode loops as specification functions.
- `Access`: `hasAnyRole` and the denial message.
- `Routes`: route selection, and the argument order of a single call.
- `Engine`: the `CrudP` class. Its fields are updated in place by `RegisterHandlers`, `SetLog` and `RegisterRoutes`. Its loops are methods proved against the functions above.
- `EngineProperties`: lemmas that relate several operations.

Modelling choices:

- Codecs, capability functions, validators, role extractors and role providers are parameters: Dafny function values that the engine calls but never inspects. Being functions, they have no state of their own (see "## Left out").
- A handler's result is classified the way the engine looks at it: nil, an error value, a slice, or another single value.
- `context.Context` and `*http.Request` are opaque `Value`s placed before the payload.
- The logger and the access-denied notifier are opaque `Sink` tokens. The denial notifier's call is returned as a `Notice` value.
- Go's `uint8` handler index is the position modulo 256.

Where the source and its documentation disagree, the model follows the code:

- A failed `RegisterHandlers` is not all-or-nothing. The table has already been reallocated to `len(handlers)` slots. It keeps the records built before the failing handler and zero records from there on (`Handlers.FailedTable`).
- When a packet fails at decoding or dispatch, its result keeps the request's `Data` as submitted. A nil result does the same. `EngineProperties.UnencodedResultsKeepRequestData` states this.
- When a slice element fails to encode, the blocks encoded before it stay in `Data` (`EngineProperties.SliceEncodeFailureKeepsPrefix`).
- A nil result gives different data on the two paths:
  - on the batch path, the packet keeps the request's data;
  - on the single-call path, the response has no data.
- Registration never binds an allowed-roles provider. `doAccessCheck` reads `handler.AllowedRoles` (http_stlib.go lines 194 and 203), but the record type in crudp.go declares no such field and `RegisterHandlers` never sets one. In the model it is `None` after registration, so access checks on registered records always pass.
- The access-check hook installed by `RegisterRoutes` is never consulted by `CallHandler`. It is modelled as a flag.
- A handler with CRUD capabilities but no `HandlerName` is rejected (handlers.go lines 44-47). The comment in interfaces.go (lines 21-22) and the tests expect a name derived from the type name by reflection instead; the model follows the code.
- The files disagree with one another about some names and signatures:
  - `interfaces.go` names the validator interface `Validate`, while `handlers.go` asserts `ValidateData`;
  - `crudp.go` gives capabilities a `ctx` parameter, while `handlers.go` and `execute.go` pass the context as a leading argument instead.

  The model follows `handlers.go`, `execute.go` and `http_stlib.go`.

## Model

| member | source | states |
|---|---|---|
| Engine.CrudP.New | crudp.go:24-32 | the engine holds exactly the given codecs, an empty table and the no-op logger; dev mode is off, no role extractor, notifier or access hook is set |
| Engine.CrudP.SetLog | crudp.go:35-41 | a nil logger installs the no-op logger, any other is installed as given; nothing else changes |
| Handlers.Register | handlers.go:13-65 | per handler: nil is rejected with its index; a handler with some CRUD capability must have a name (else an error with its index) and a validator (else an error with its name); the rejection conditions are exact (iff); an accepted handler keeps position i mod 256, binds exactly the capabilities it implements and no roles provider, stays inert and unnamed when it has none, and caches its type exactly when it has some |
| Handlers.FirstFailure | handlers.go:13-15 | the position of the first rejected handler: all handlers before it are accepted, and it is rejected unless it is the end of the list |
| Handlers.RegistrationSucceedsIff | handlers.go:10-72 | registration returns no error exactly when every handler in the list is accepted |
| Handlers.NilHandlerRejected | handlers.go:14-16 | a nil handler anywhere makes registration fail, with "handler i is nil" when it is the first rejected handler |
| Handlers.DenseTable | handlers.go:11-19 | after a successful registration, slot i holds the record built for handler i, with stored index i mod 256 (i itself below 256) |
| Handlers.FailedTable | handlers.go:11-16 | after a failure at position k, the error is that handler's, slots before k keep their records and slots from k on are zero records |
| Handlers.TableFromPrefix | handlers.go:11-72 | a table of the records before a failing position (or all records) followed by zero records is the table registration leaves, with the matching error |
| Engine.CrudP.RegisterHandlers | handlers.go:10-72 | the table becomes `Table(hs)` and the returned error is `RegistrationError(hs)`, the functions the lemmas above characterise |
| Engine.CrudP.GetHandlerName | handlers.go:75-80 | "" for an id outside the table, otherwise the stored name |
| EngineProperties.RegisteredName | handlers.go:42-48 | after a successful registration, id i names handler i: its own name if it has CRUD capabilities, "" otherwise |
| EngineProperties.WrappedIndexDispatchesElsewhere | handlers.go:19 | after a successful registration of more than 256 handlers, the record at slot i ≥ 256 stores index i mod 256, and that index selects the record of handler i mod 256 |
| EngineProperties.DispatchReachesRegisteredHandler | handlers.go:25-40 | after a successful registration, id i with a CRUD action reaches exactly that capability of handler i, and other actions reach nothing |
| Engine.CrudP.CallHandler | handlers.go:83-138 | an id outside the table fails with "no handler found for id"; a validator error is returned before any capability runs; an action outside c/r/u/d is "unknown action", a known action without a capability is "not implemented"; a capability's error value becomes the error, any other result (nil included) is returned; success iff in range, validated, bound and not an error value |
| Values.UnknownDiffersFromNotImplemented | handlers.go:121-125 | the "unknown action" and "not implemented" texts are always different |
| Values.NoHandlerMessageNamesId | handlers.go:85 | distinct unknown ids give distinct error texts |
| Values.NatToStringInjective | handlers.go:85 | the decimal rendering used by `%d` is injective |
| Values.Message | handlers.go:15-157 | the error texts of handlers.go (lines 15, 46, 54, 85, 121, 125, 157), execute.go (13, 67) and http_stlib.go (211): an error produced by handler or codec code keeps its own text, and every error the engine raises itself has a non-empty text |
| Values.NatToString | handlers.go:85 | the `%d` rendering is a non-empty string of decimal digits |
| Codec.DecodeItems | handlers.go:151-167 | a successful decode yields as many items as blocks |
| Codec.DecodePointwise | handlers.go:151-167 | decoding succeeds iff a decoder is configured (or there is no data) and every block decodes; item k is then the decode of block k with the cached type |
| Codec.DecoderRequiredForData | handlers.go:152-158 | without a decoder, an empty payload decodes to no items and a non-empty one fails with "decode function not configured" |
| Codec.DecodeFailsAtFirstBadBlock | handlers.go:160-162 | the first block that fails to decode gives the whole decode its error |
| Codec.DecodePrefixFailure | handlers.go:152-162 | once a prefix fails to decode, the later blocks do not change the result |
| Engine.CrudP.DecodedData | handlers.go:141-177 | what decoding a packet yields: "no handler" for an id outside the table, the raw blocks for a record without a cached type, one argument per block on success, and a failure only for a typed record with data |
| Codec.RawItems | handlers.go:171-177 | one raw item per block, holding that block unchanged |
| Codec.RawItemsRoundTrip | handlers.go:171-177 | taking the blocks back out of the raw items gives the original data |
| Engine.CrudP.DecodeWithKnownType | handlers.go:141-168 | the loop computes `DecodedData`: "no handler" for an id outside the table, the raw blocks when no type is cached, otherwise `DecodeItems` with the cached type |
| Engine.CrudP.DecodeWithRawBytes | handlers.go:171-177 | one `Bytes` item per block, in order |
| Codec.EncodeItems | execute.go:72-81 | the encoded blocks never outnumber the items, and on success there is one per item |
| Codec.EncodePointwise | execute.go:72-81 | encoding a slice succeeds iff every element encodes, and block k is then the encoding of element k |
| Codec.EncodeStopsAtFirstFailure | execute.go:76-78 | the first element that fails to encode gives its error, after exactly the blocks of the elements before it |
| Codec.EncodePrefixFailure | execute.go:74-78 | once a prefix fails to encode, the later elements do not change the result |
| Codec.EncodeOutcome | execute.go:61-91 | a nil result leaves the data and succeeds; a non-nil result without an encoder fails with "encode function not configured" and leaves the data; a successful single result is one block and a successful slice one block per element |
| Engine.CrudP.EncodeResult | execute.go:61-91 | only the packet's Data changes, and Data with the error is what `EncodeOutcome` gives |
| Engine.CrudP.ExecuteSingle | execute.go:28-59 | the result is `PacketOutcome`: decode, dispatch, encode, the first failing stage setting Error and its text, otherwise Success and "OK" |
| Engine.CrudP.PacketOutcome | execute.go:28-59 | a packet's result echoes its action, handler id and request id, is Error or Success, says "OK" whenever it is a Success, and after a decode failure is the packet as submitted with Error and that failure's text |
| EngineProperties.PacketResultContract | execute.go:28-59 | a result is Success with "OK" exactly when no stage fails (by the independent stage-by-stage `PacketError`), and otherwise Error with the failing stage's text |
| EngineProperties.UnknownIdPacket | handlers.go:142-144 | a packet for an id outside the table is the packet unchanged, with Error and "no handler found for id: N" |
| EngineProperties.UnencodedResultsKeepRequestData | execute.go:34-47 | after a decode or dispatch failure, or a nil result, the result carries the packet exactly as submitted |
| EngineProperties.SliceResultBlocks | execute.go:72-81 | a successful slice result has one block per element, block k encoding element k |
| EngineProperties.SingleResultBlock | execute.go:84-90 | a successful non-slice result has exactly one block, its encoding |
| EngineProperties.ResultWithoutEncoder | execute.go:66-68 | a non-nil result with no encoder gives this packet the "encode function not configured" error |
| EngineProperties.SliceEncodeFailureKeepsPrefix | execute.go:73-78 | when element k fails to encode, the packet is Error with that element's error text, and Data holds exactly the k blocks encoded before it |
| EngineProperties.UsersScenario | handlers.go:99-126 | for a "users" handler with create and read: an unknown action code and an unimplemented delete give the two distinct errors, create and read reach their functions, and id 99 is refused |
| Engine.CrudP.Execute | execute.go:11-26 | a nil request fails with "request is nil"; otherwise a response with one result per packet, in order, result k being `PacketOutcome` of packet k alone |
| Packets.Code | packet.go:23 | message types have codes 0 to 4 |
| Packets.TypeOfCode | packet.go:23 | a code names a message type iff it is at most 4 |
| Packets.CodesRoundTrip | packet.go:23 | the code of a message type names that type, and a valid code is the code of the type it names |
| Access.AnyAdmits | http_stlib.go:224-234 | the loop over the allowed roles returns true iff some allowed role is held by the caller, or is `*` and the caller has some role |
| Access.HasAnyRole | http_stlib.go:219-235 | false for an empty allowed list; otherwise true iff some allowed role is held by the user, or is `*` and the user has some role |
| Access.AnonymousNeverAdmitted | http_stlib.go:219-235 | a user with no roles is never admitted, not even by `*` |
| Access.WildcardAdmitsAuthenticated | http_stlib.go:225-227 | an allowed list containing `*` admits every user with at least one role |
| Access.SharedRoleIff | http_stlib.go:224-233 | without `*`, admission holds iff the user and allowed lists share a role |
| Access.MoreRolesKeepAccess | http_stlib.go:219-235 | adding roles to an admitted user keeps them admitted |
| Access.Quote | http_stlib.go:206 | a role list is rendered as a double quote, one character per role in order, and a closing double quote |
| Access.DenialMessage | http_stlib.go:206 | the detailed denial reason starts with "required roles " and the quoted allowed roles, and ends with the quoted roles of the caller |
| Engine.CrudP.UserRoles | http_stlib.go:198-201 | the caller's roles are what the configured extractor reads from the call's arguments, and none when no extractor is set |
| Engine.CrudP.DoAccessCheck | http_stlib.go:193-215 | dev mode or no roles provider passes without a notice; otherwise the call passes iff `HasAnyRole` admits the caller's roles; a denial is always the generic "access denied" error; the notifier is called iff a denial happens and a notifier is set, with the handler's name, the action, both role lists and the detailed message |
| EngineProperties.WildcardPolicy | http_stlib.go:193-215 | under a `*` policy, outside dev mode, a caller with roles passes and a caller without roles gets "access denied" |
| Routes.MethodOf | http_stlib.go:30-41 | only the four CRUD actions have an HTTP method |
| Routes.ActionOf | http_stlib.go:30-41 | a method selects a CRUD action or none |
| Routes.MethodActionRoundTrip | http_stlib.go:30-41 | POST/GET/PUT/DELETE correspond one-to-one to c/r/u/d in both directions |
| Routes.Pattern | http_stlib.go:25-40 | the batch route is "POST /batch"; an action route's pattern starts with its method and " /", then names its record, with length that of `METHOD /name/{path...}` |
| Routes.RoutePattern | http_stlib.go:28-42 | every action route of a table is registered under `METHOD /name/{path...}` for its action's method and its record's name |
| Routes.RecordPatternsDistinct | http_stlib.go:30-41 | the four routes of one record never share a pattern |
| Routes.DuplicateNamesCollide | http_stlib.go:28-42 | two records of one name that bind the same action both get routes, under the same pattern |
| Routes.RoutesForExtend | http_stlib.go:28-42 | extending the table by one record appends that record's routes |
| Routes.RoutesSound | http_stlib.go:28-42 | every action route comes from a table record that binds that action, under the method of that action and the record's name |
| Routes.RoutesComplete | http_stlib.go:28-42 | every bound capability of every table record has its route |
| Engine.CrudP.RegisterRoutes | http_stlib.go:18-43 | the access-check hook is installed, and the routes are the batch endpoint followed by `RoutesFor` of the table; the first is "POST /batch" and every other is `METHOD /name/{path...}` for its action and record |
| Engine.CrudP.RecordRoutesOf | http_stlib.go:30-41 | one record's routes are POST, GET, PUT, DELETE in that order, each only when its capability is bound |
| Routes.SingleCallArgs | http_stlib.go:136-142 | a single call's arguments are the context, the request, the path when non-empty, then the decoded payload unchanged |
| Engine.CrudP.HandleSingle | http_stlib.go:129-172 | a payload decode error is a 500 with its text; no encoder is always a 500; a response echoes the request id and is Error or Success; a failed call is Error with its text and no data; a nil result is Success with no data; any other result is Success with its encoding, or a 500 when encoding fails |

## Left out

- Reading the HTTP body, decoding the `Request` envelope and encoding the `Response` (`handleSingle` lines 111-127 and 174-181, `encodeBody`, `handleBatch`): this is I/O around the modelled core. `HandleSingle` starts from the decoded `Request` and returns the `Response` to be encoded.
- `ApplyMiddleware`, `makeHandler` and `mux.HandleFunc`: net/http plumbing. `RegisterRoutes` returns the route list instead of installing it.
- Logging: calls to the logger (`registered handler`, `access denied`) have no effect the engine can observe, so they are not modelled. `SetLog` records which logger is installed.
- Reflection: `reflect.TypeOf(h)` becomes the handler's `typeOf` tag, and `reflect.New` is part of the decoder parameter. The slice check is the `Many` outcome.
- Access.Quote: Go's `%q` escaping of non-printable bytes is not modelled. Roles are rendered one character per byte.
- `getUserRoles`, `devMode` and `accessDeniedHandler` are state that no file of the core sets. The model reads them as fields and provides no setters.
- The `MinAccess` access level that test handlers declare (no core file reads it), the `SetDevMode` setter the tests call (no core file defines it), the WASM client (`client_wasm.go`, `execute_front.go`), SSE and the example applications are outside the core.
- Engine.CrudP.Execute: handler, validator and codec state is not modelled. Go handlers may keep state between calls (the example user module appends to a list and counts ids), so a later packet of a batch can see what an earlier one did. The proved independence of each result is the engine's own: it carries nothing from one packet to the next. It is not a claim that a stateful handler's results are independent.
- Engine.CrudP.RegisterRoutes: handler names are not checked for being non-empty or unique, by the code or by the model. `Routes.DuplicateNamesCollide` shows that two records with one name and a shared action yield two routes with one pattern. net/http panics on such a registration, and the model, which returns the route list, does not capture that panic.
- Concurrency: the Go code does not synchronise access to the table, and the model assumes calls do not run in parallel with registration.
- Engine.CrudP.HandleSingle: the record `h` is the one captured when routes were registered. The model takes it as a parameter and does not track that it may go stale after a later `RegisterHandlers`.
- Handlers.Register: with more than 256 handlers, the stored `uint8` index wraps. A route registered for handler 256 or later calls `CallHandler` with the wrapped index and reaches a different slot (`EngineProperties.WrappedIndexDispatchesElsewhere`). The model keeps this behaviour of the code and defines no corrected registration.
