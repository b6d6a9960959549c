/** src/first-action-watchdog.ts: capability-policy resolution of a fallback body. */
module Reroute {
  import opened Prelude

  datatype Body = Body(id: string, fillsRoles: seq<string>)
  datatype RoleDef = RoleDef(id: string, exclusive: bool)
  datatype Policy = Policy(bodies: seq<Body>, roles: seq<RoleDef>)

  /** Is the first definition of this role marked exclusive? An undefined role is not. */
  predicate Exclusive(roles: seq<RoleDef>, role: string) {
    roles != [] && if roles[0].id == role then roles[0].exclusive else Exclusive(roles[1..], role)
  }

  /** A body other than `delegate` that fills `role`. */
  predicate Alternate(b: Body, role: string, delegate: string) {
    role in b.fillsRoles && b.id != delegate
  }

  function FirstAlternate(bodies: seq<Body>, role: string, delegate: string): Option<string> {
    if bodies == [] then None
    else if Alternate(bodies[0], role, delegate) then Some(bodies[0].id)
    else FirstAlternate(bodies[1..], role, delegate)
  }

  function RerouteTarget(policy: Option<Policy>, role: string, delegate: string): Option<string> {
    if policy.None? then None
    else if Exclusive(policy.value.roles, role) then None
    else FirstAlternate(policy.value.bodies, role, delegate)
  }

  /** Some body of the policy may legally take over `role` from `delegate`. */
  predicate Reroutable(policy: Policy, role: string, delegate: string) {
    !Exclusive(policy.roles, role) && exists b :: b in policy.bodies && Alternate(b, role, delegate)
  }

  lemma {:induction false} FirstAlternateIsOne(bodies: seq<Body>, role: string, delegate: string)
    ensures var r := FirstAlternate(bodies, role, delegate);
            && (r.Some? ==> exists b :: b in bodies && Alternate(b, role, delegate) && b.id == r.value)
            && (r.Some? <==> exists b :: b in bodies && Alternate(b, role, delegate))
  {
    if bodies != [] {
      FirstAlternateIsOne(bodies[1..], role, delegate);
      assert forall b :: b in bodies <==> b == bodies[0] || b in bodies[1..];
    }
  }

  /** A target exists exactly when the role can move, and it is never the delegate and never outside the role. */
  lemma RerouteTargetIsLegal(policy: Policy, role: string, delegate: string)
    ensures var r := RerouteTarget(Some(policy), role, delegate);
            && (r.Some? <==> Reroutable(policy, role, delegate))
            && (r.Some? ==> r.value != delegate && exists b :: b in policy.bodies && b.id == r.value && role in b.fillsRoles)
  {
    FirstAlternateIsOne(policy.bodies, role, delegate);
  }

  function FindBody(bodies: seq<Body>, id: string): Option<Body> {
    if bodies == [] then None
    else if bodies[0].id == id then Some(bodies[0])
    else FindBody(bodies[1..], id)
  }

  function FirstReroutable(roles: seq<string>, policy: Policy, delegate: string): Option<string> {
    if roles == [] then None
    else if Exclusive(policy.roles, roles[0]) then FirstReroutable(roles[1..], policy, delegate)
    else if FirstAlternate(policy.bodies, roles[0], delegate).Some? then Some(roles[0])
    else FirstReroutable(roles[1..], policy, delegate)
  }

  /** The role to re-route a degraded delegate under: the declared owner role, else one the delegate fills that can move. */
  function ModelDegradedRole(ownerRole: Option<string>, delegate: string, policy: Option<Policy>): Option<string> {
    if Truthy(ownerRole) then ownerRole
    else if policy.None? then None
    else
      var body := FindBody(policy.value.bodies, delegate);
      if body.None? then None else FirstReroutable(body.value.fillsRoles, policy.value, delegate)
  }

  lemma {:induction false} FirstReroutableMoves(roles: seq<string>, policy: Policy, delegate: string)
    ensures var r := FirstReroutable(roles, policy, delegate);
            && (r.Some? ==> r.value in roles && RerouteTarget(Some(policy), r.value, delegate).Some?)
            && (r.Some? <==> exists role :: role in roles && Reroutable(policy, role, delegate))
  {
    if roles != [] {
      FirstReroutableMoves(roles[1..], policy, delegate);
      RerouteTargetIsLegal(policy, roles[0], delegate);
      assert forall r :: r in roles <==> r == roles[0] || r in roles[1..];
    }
  }

  /**
   * Without a declared owner role, a degraded delegate gets a role exactly when some role it fills has a legal target,
   * and re-routing under the role it gets never comes up empty.
   */
  lemma InferredRoleAlwaysReroutes(delegate: string, policy: Policy)
    ensures var role := ModelDegradedRole(None, delegate, Some(policy));
            var body := FindBody(policy.bodies, delegate);
            && (role.Some? ==> RerouteTarget(Some(policy), role.value, delegate).Some?)
            && (role.Some? <==> body.Some? && exists r :: r in body.value.fillsRoles && Reroutable(policy, r, delegate))
  {
    var body := FindBody(policy.bodies, delegate);
    if body.Some? {
      FirstReroutableMoves(body.value.fillsRoles, policy, delegate);
    }
  }
}
