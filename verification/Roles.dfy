/** Thread roles of lib/message_queue_interface.hpp: AccountThreads and what its answer means. */
module Roles {

  datatype Role = Producer | Consumer | Both | NoInfo

  datatype Policy = OnThreadRoleChange | OnDeadlock | NoException

  datatype Category = SPSC | MPSC | SPMC | MPMC

  predicate SingleProducer(c: Category) { c.SPSC? || c.SPMC? }

  predicate SingleConsumer(c: Category) { c.SPSC? || c.MPSC? }

  /** The role recorded for a thread. */
  function RoleOf(roles: map<nat, Role>, t: nat): Role { if t in roles then roles[t] else NoInfo }

  /** AccountThreads throws, leaving the role as it is. */
  predicate Throws(policy: Policy, current: Role, role: Role) {
    current != NoInfo && current != role && policy.OnThreadRoleChange?
  }

  /** The role AccountThreads leaves behind. */
  function Account(policy: Policy, current: Role, role: Role): Role {
    if current == NoInfo then role
    else if current == role || policy.OnThreadRoleChange? then current
    else Both
  }

  /** AccountThreads on the map of recorded roles. */
  method AccountThreads(policy: Policy, roles: map<nat, Role>, t: nat, role: Role)
    returns (threw: bool, roles': map<nat, Role>)
    requires role in {Producer, Consumer}
    ensures threw == Throws(policy, RoleOf(roles, t), role)
    ensures roles' == roles[t := Account(policy, RoleOf(roles, t), role)]
    ensures RoleOf(roles', t) == Account(policy, RoleOf(roles, t), role)
    ensures forall u | u != t :: RoleOf(roles', u) == RoleOf(roles, u)
  {
    var current := RoleOf(roles, t);
    if current == NoInfo {
      return false, roles[t := role];
    }
    if current != role {
      if policy.OnThreadRoleChange? { return true, roles; }
      return false, roles[t := Both];
    }
    return false, roles;
  }

  /** The role of a thread after a sequence of attempts to send and to read. */
  function After(policy: Policy, attempts: seq<Role>): Role {
    if attempts == [] then NoInfo
    else Account(policy, After(policy, attempts[..|attempts| - 1]), attempts[|attempts| - 1])
  }

  predicate Directions(attempts: seq<Role>) {
    forall i | 0 <= i < |attempts| :: attempts[i] in {Producer, Consumer}
  }

  /** A thread's role is kBoth exactly when it has attempted both directions and role changes are allowed;
      until then it is the one direction attempted. */
  lemma {:induction false} BothMeansBothDirections(policy: Policy, attempts: seq<Role>)
    requires Directions(attempts)
    ensures After(policy, attempts) == Both <==>
            !policy.OnThreadRoleChange? && Producer in attempts && Consumer in attempts
    ensures attempts != [] && After(policy, attempts) != Both ==> After(policy, attempts) == attempts[0]
    ensures attempts == [] <==> After(policy, attempts) == NoInfo
  {
    if attempts != [] {
      var front, last := attempts[..|attempts| - 1], attempts[|attempts| - 1];
      BothMeansBothDirections(policy, front);
      assert attempts == front + [last];
      AppendedMembers(front, last);
      assert last in {Producer, Consumer};
      assert After(policy, attempts) == Account(policy, After(policy, front), last);
      if front != [] {
        assert front[0] == attempts[0] && front[0] in front && front[0] in {Producer, Consumer};
      }
    }
  }

  lemma AppendedMembers(front: seq<Role>, last: Role)
    ensures forall r :: r in front + [last] <==> r in front || r == last
  {
  }

  /** An attempt is refused for changing role exactly when the policy says so and it differs from the first. */
  lemma ThrowsOnFirstChange(policy: Policy, attempts: seq<Role>, role: Role)
    requires Directions(attempts) && role in {Producer, Consumer}
    ensures Throws(policy, After(policy, attempts), role) <==>
            policy.OnThreadRoleChange? && attempts != [] && role != attempts[0]
  {
    BothMeansBothDirections(policy, attempts);
  }
}
