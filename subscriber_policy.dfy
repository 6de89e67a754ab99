/**
 * Who may manage newsletter subscribers (app/Policies/SubscriberPolicy.php).
 * Every ability reduces to one check: the user's role is exactly "admin".
 */
module SubscriberPolicy {
  import opened Wrappers
  import opened Permissions

  /** A subscriber row; no ability looks at it. */
  datatype Subscriber = Subscriber(id: int, email: string)

  /** The seven abilities of the policy. */
  datatype Ability = ViewAny | View | Create | Update | Delete | Restore | ForceDelete

  /** Whether the ability concerns one subscriber (and so receives it). */
  predicate OnOneSubscriber(a: Ability) {
    !(a.ViewAny? || a.Create?)
  }

  /** `isAdmin`: strict comparison with "admin". */
  predicate IsAdmin(user: User) {
    user.role == "admin"
  }

  /**
   * The policy's answer for a signed-in user and, for the abilities on one
   * subscriber, that subscriber.
   */
  function Allows(a: Ability, user: User, subscriber: Option<Subscriber>): (r: bool)
    ensures r <==> user.role == "admin"
  {
    match a
    case ViewAny => IsAdmin(user)
    case View => IsAdmin(user)
    case Create => IsAdmin(user)
    case Update => IsAdmin(user)
    case Delete => IsAdmin(user)
    case Restore => IsAdmin(user)
    case ForceDelete => IsAdmin(user)
  }

  /**
   * As the gate applies it: a guest never reaches a policy whose user
   * parameter is not nullable, so a guest is always refused.
   */
  predicate Authorize(a: Ability, caller: Option<User>, subscriber: Option<Subscriber>) {
    caller.Some? && Allows(a, caller.value, subscriber)
  }

  /** The abilities stand or fall together, and the subscriber plays no part. */
  lemma AbilitiesAgree(a: Ability, b: Ability, user: User, s: Option<Subscriber>, t: Option<Subscriber>)
    ensures Allows(a, user, s) == Allows(b, user, t)
  {
  }

  /** The policy is the exact-"admin" gate of the server actions. */
  lemma AuthorizeIsExactAdmin(a: Ability, caller: Option<User>, s: Option<Subscriber>)
    ensures Authorize(a, caller, s) <==> ExactAdminGate(caller)
  {
  }

  /** A superadmin, who passes every role-hierarchy check, is refused every ability here. */
  lemma SuperAdminRefused(a: Ability, id: string, s: Option<Subscriber>)
    ensures EvaluateRole(User(id, "superadmin"), AdminRole)
    ensures !Authorize(a, Some(User(id, "superadmin")), s)
  {
    SuperAdminPassesEverything(id, AdminRole);
  }

  /** The comparison is case-sensitive. */
  lemma CapitalisedAdminRefused(a: Ability, id: string, s: Option<Subscriber>)
    ensures !Authorize(a, Some(User(id, "Admin")), s)
  {
    assert "Admin"[0] != "admin"[0];
  }
}
