/**
 * Route selection and argument assembly of the HTTP server side
 * (http_stlib.go:18-43, 136-142), without the net/http plumbing.
 */
module Routes {
  import opened Values
  import opened Handlers

  /** The HTTP method an action's automatic route is registered under. */
  function MethodOf(a: Byte): (m: string)
    ensures IsAction(a) <==> m != ""
  {
    if a == Create then "POST"
    else if a == Read then "GET"
    else if a == Update then "PUT"
    else if a == Delete then "DELETE"
    else ""
  }

  /** The action an HTTP method selects; 0 for a method that selects none. */
  function ActionOf(m: string): (a: Byte)
    ensures a == 0 || IsAction(a)
  {
    if m == "POST" then Create
    else if m == "GET" then Read
    else if m == "PUT" then Update
    else if m == "DELETE" then Delete
    else 0
  }

  /** The method/action correspondence is one-to-one, in both directions. */
  lemma MethodActionRoundTrip(a: Byte, m: string)
    ensures IsAction(a) ==> ActionOf(MethodOf(a)) == a
    ensures ActionOf(m) != 0 ==> MethodOf(ActionOf(m)) == m
  {
  }

  /** A registered route: the batch endpoint, or one action of one record under `METHOD /name/{path...}`. */
  datatype Route =
    | BatchRoute
    | ActionRoute(verb: string, name: string, record: Record, action: Byte)

  /** The `mux.HandleFunc` pattern of a route: the batch endpoint, or the method followed by `/name/{path...}`. */
  function Pattern(r: Route): (p: string)
    ensures r.BatchRoute? ==> p == "POST /batch"
    // an action route's pattern starts with its method and names its record
    ensures r.ActionRoute? ==> |p| == |r.verb| + |r.name| + 12
    ensures r.ActionRoute? ==> p[..|r.verb|] == r.verb && p[|r.verb|..|r.verb| + 2] == " /"
    ensures r.ActionRoute? ==> p[|r.verb| + 2..|r.verb| + 2 + |r.name|] == r.name
  {
    match r
    case BatchRoute => "POST /batch"
    case ActionRoute(m, name, _, _) => m + " /" + name + "/{path...}"
  }

  function RouteFor(r: Record, a: Byte): Route {
    ActionRoute(MethodOf(a), r.name, r, a)
  }

  /** The routes of one record, in the order create, read, update, delete, for the bound capabilities only. */
  function RecordRoutes(r: Record): seq<Route> {
    AddRoute(AddRoute(AddRoute(AddRoute([], r, Create), r, Read), r, Update), r, Delete)
  }

  /** The routes so far, extended by the route of action a when r binds it. */
  function AddRoute(routes: seq<Route>, r: Record, a: Byte): seq<Route> {
    if Bound(r, a) then routes + [RouteFor(r, a)] else routes
  }

  /** The action routes of a table, record by record in table order. */
  function RoutesFor(rs: seq<Record>): seq<Route>
    decreases |rs|
  {
    if rs == [] then [] else RoutesFor(rs[..|rs| - 1]) + RecordRoutes(rs[|rs| - 1])
  }

  /** Extending the table by one record appends that record's routes. */
  lemma RoutesForExtend(rs: seq<Record>, i: nat)
    requires i < |rs|
    ensures RoutesFor(rs[..i + 1]) == RoutesFor(rs[..i]) + RecordRoutes(rs[i])
  {
    assert rs[..i + 1][..i] == rs[..i];
  }

  /** Every action route serves a bound capability of a record of the table, under that action's method and the record's name. */
  lemma {:induction false} RoutesSound(rs: seq<Record>, route: Route)
    requires route in RoutesFor(rs)
    ensures route.ActionRoute? && route.record in rs
    ensures IsAction(route.action) && Bound(route.record, route.action)
    ensures route == RouteFor(route.record, route.action)
    decreases |rs|
  {
    var init := rs[..|rs| - 1];
    if route in RoutesFor(init) {
      RoutesSound(init, route);
      assert route.record in rs by {
        var k :| 0 <= k < |init| && init[k] == route.record;
        assert rs[k] == route.record;
      }
    } else {
      assert route in RecordRoutes(rs[|rs| - 1]);
    }
  }

  /** Every bound capability of every record gets its route. */
  lemma {:induction false} RoutesComplete(rs: seq<Record>, i: nat, a: Byte)
    requires i < |rs| && Bound(rs[i], a)
    ensures RouteFor(rs[i], a) in RoutesFor(rs)
    decreases |rs|
  {
    var init := rs[..|rs| - 1];
    if i < |rs| - 1 {
      RoutesComplete(init, i, a);
      assert init[i] == rs[i];
    } else {
      assert RouteFor(rs[i], a) in RecordRoutes(rs[i]);
    }
  }

  /** Every action route of a table is registered under `METHOD /name/{path...}` for its action's method and its record's name. */
  lemma RoutePattern(rs: seq<Record>, route: Route)
    requires route in RoutesFor(rs)
    ensures route.ActionRoute? && IsAction(route.action)
    ensures Pattern(route) == MethodOf(route.action) + " /" + route.record.name + "/{path...}"
  {
    RoutesSound(rs, route);
  }

  /** The routes of one record have pairwise distinct patterns: its four methods never clash with each other. */
  lemma RecordPatternsDistinct(r: Record, a: Byte, b: Byte)
    requires IsAction(a) && IsAction(b) && a != b
    ensures Pattern(RouteFor(r, a)) != Pattern(RouteFor(r, b))
  {
    var pa, pb := Pattern(RouteFor(r, a)), Pattern(RouteFor(r, b));
    if MethodOf(a)[0] == MethodOf(b)[0] {
      // only POST and PUT share their first letter
      assert pa[1] != pb[1];
    } else {
      assert pa[0] != pb[0];
    }
  }

  /**
   * Registration does not make names unique: two records of the same name
   * that bind the same action both get their route, under the same
   * pattern, which net/http refuses as a conflicting registration.
   */
  lemma DuplicateNamesCollide(rs: seq<Record>, i: nat, j: nat, a: Byte)
    requires i < |rs| && j < |rs| && i != j && rs[i].name == rs[j].name
    requires Bound(rs[i], a) && Bound(rs[j], a)
    ensures RouteFor(rs[i], a) in RoutesFor(rs) && RouteFor(rs[j], a) in RoutesFor(rs)
    ensures Pattern(RouteFor(rs[i], a)) == Pattern(RouteFor(rs[j], a))
  {
    RoutesComplete(rs, i, a);
    RoutesComplete(rs, j, a);
  }

  /**
   * The argument list of a single call: the injected context and request
   * first, then the path when it is non-empty, then the decoded payload
   * items in their order.
   */
  function SingleCallArgs(ctx: Value, request: Value, path: string, payload: seq<Value>): (args: seq<Value>)
    ensures |args| == (if path == "" then 2 else 3) + |payload|
    ensures args[0] == ctx && args[1] == request
    ensures path != "" ==> args[2] == Text(path)
    ensures args[|args| - |payload|..] == payload
  {
    var inject := [ctx, request];
    var inject := if path != "" then inject + [Text(path)] else inject;
    inject + payload
  }
}
