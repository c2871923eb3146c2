/** The role access policy of the HTTP server side (http_stlib.go:192-235), its pure parts. */
module Access {
  import opened Values

  /** The wildcard role: any caller holding at least one role. */
  const Wildcard: Byte := '*' as int

  /** One allowed role admits a caller: the wildcard admits any non-empty role set, any other role admits its holders. */
  predicate Admits(userRoles: seq<Byte>, allowed: Byte) {
    (allowed == Wildcard && |userRoles| > 0) || allowed in userRoles
  }

  /**
   * `hasAnyRole`: OR over the allowed roles. An empty allowed set admits
   * nobody; otherwise the caller is admitted exactly when some allowed role
   * admits them.
   */
  function HasAnyRole(userRoles: seq<Byte>, allowedRoles: seq<Byte>): (r: bool)
    ensures |allowedRoles| == 0 ==> !r
    ensures r <==> exists k :: 0 <= k < |allowedRoles| && Admits(userRoles, allowedRoles[k])
  {
    if |allowedRoles| == 0 then false else AnyAdmits(userRoles, allowedRoles)
  }

  /** The loop of hasAnyRole over the allowed roles, returning at the first that admits. */
  function AnyAdmits(userRoles: seq<Byte>, allowedRoles: seq<Byte>): (r: bool)
    ensures r <==> exists k :: 0 <= k < |allowedRoles| && Admits(userRoles, allowedRoles[k])
    decreases |allowedRoles|
  {
    if allowedRoles == [] then false
    else if allowedRoles[0] == Wildcard && |userRoles| > 0 then true
    else if allowedRoles[0] in userRoles then true
    else AnyAdmits(userRoles, allowedRoles[1..])
  }

  /** A caller with no roles is never admitted, not even by the wildcard. */
  lemma AnonymousNeverAdmitted(allowedRoles: seq<Byte>)
    ensures !HasAnyRole([], allowedRoles)
  {
  }

  /** The wildcard admits every caller holding any role at all. */
  lemma WildcardAdmitsAuthenticated(userRoles: seq<Byte>, allowedRoles: seq<Byte>)
    requires Wildcard in allowedRoles && |userRoles| > 0
    ensures HasAnyRole(userRoles, allowedRoles)
  {
    var k :| 0 <= k < |allowedRoles| && allowedRoles[k] == Wildcard;
    assert Admits(userRoles, allowedRoles[k]);
  }

  /** Without the wildcard, access is granted exactly when caller and policy share a role. */
  lemma SharedRoleIff(userRoles: seq<Byte>, allowedRoles: seq<Byte>)
    requires Wildcard !in allowedRoles
    ensures HasAnyRole(userRoles, allowedRoles) <==> exists r :: r in userRoles && r in allowedRoles
  {
    if exists r :: r in userRoles && r in allowedRoles {
      var r :| r in userRoles && r in allowedRoles;
      var k :| 0 <= k < |allowedRoles| && allowedRoles[k] == r;
      assert Admits(userRoles, allowedRoles[k]);
    }
  }

  /** Holding more roles never loses access. */
  lemma MoreRolesKeepAccess(userRoles: seq<Byte>, more: seq<Byte>, allowedRoles: seq<Byte>)
    requires forall r :: r in userRoles ==> r in more
    requires HasAnyRole(userRoles, allowedRoles)
    ensures HasAnyRole(more, allowedRoles)
  {
    var k :| 0 <= k < |allowedRoles| && Admits(userRoles, allowedRoles[k]);
    if allowedRoles[k] in userRoles {
      assert Admits(more, allowedRoles[k]);
    } else {
      assert userRoles[0] in more;
      assert Admits(more, allowedRoles[k]);
    }
  }

  /** What a configured denial notifier is given. */
  datatype DenialEvent = DenialEvent(
    handlerName: string,
    action: Byte,
    userRoles: seq<Byte>,
    allowedRoles: seq<Byte>,
    message: string)

  /** A `%q` rendering of a role list: the roles as characters between double quotes. */
  function Quote(roles: seq<Byte>): (s: string)
    ensures |s| == |roles| + 2
    ensures s[0] == '"' && s[|s| - 1] == '"'
    ensures forall k :: 0 <= k < |roles| ==> s[k + 1] == CharOf(roles[k])
  {
    ['"'] + seq(|roles|, k requires 0 <= k < |roles| => CharOf(roles[k])) + ['"']
  }

  /** The detailed reason given to the notifier (never to the caller). */
  function DenialMessage(allowedRoles: seq<Byte>, userRoles: seq<Byte>): (m: string)
    // names the allowed roles first, then the caller's
    ensures |m| == 30 + |allowedRoles| + |userRoles|
    ensures m[..15] == "required roles " && m[15..17 + |allowedRoles|] == Quote(allowedRoles)
    ensures m[|m| - |userRoles| - 2..] == Quote(userRoles)
  {
    "required roles " + Quote(allowedRoles) + ", user has " + Quote(userRoles)
  }
}
