/**
 * The role hierarchy (lib/server/permissions.ts) and the four gate shapes
 * the server actions put in front of their writes.
 */
module Permissions {
  import opened Wrappers

  /** The session user: an id and the free-form `role` string of the user table. */
  datatype User = User(id: string, role: string)

  /** The `minimumRequired` argument of `evaluateRole`: one of the three known roles. */
  datatype Role = UserRole | AdminRole | SuperAdminRole

  function RoleName(r: Role): string {
    match r
    case UserRole => "user"
    case AdminRole => "admin"
    case SuperAdminRole => "superadmin"
  }

  /** `roleHierarchy[r]` for a known role. */
  function Rank(r: Role): nat {
    match r
    case UserRole => 1
    case AdminRole => 2
    case SuperAdminRole => 3
  }

  /**
   * `roleHierarchy[role]` for an arbitrary role string: `None` stands for the
   * `undefined` an unknown key yields.
   */
  function RankOfName(role: string): (r: Option<nat>)
    ensures r.None? <==> forall k :: RoleName(k) != role
    ensures forall k :: RoleName(k) == role ==> r == Some(Rank(k))
  {
    if role == RoleName(UserRole) then Some(Rank(UserRole))
    else if role == RoleName(AdminRole) then Some(Rank(AdminRole))
    else if role == RoleName(SuperAdminRole) then Some(Rank(SuperAdminRole))
    else None
  }

  /** `evaluateRole(user, minimum)`: `undefined >= n` is false, so an unknown role never passes. */
  function EvaluateRole(user: User, minimum: Role): bool {
    match RankOfName(user.role)
    case None => false
    case Some(n) => n >= Rank(minimum)
  }

  lemma RanksStrictlyOrdered()
    ensures Rank(UserRole) < Rank(AdminRole) < Rank(SuperAdminRole)
    ensures forall a, b :: Rank(a) == Rank(b) ==> a == b
  {
  }

  /** The check holds exactly when the user's role is a known one of rank at least the minimum's. */
  lemma EvaluateRoleIff(u: User, minimum: Role)
    ensures EvaluateRole(u, minimum) <==> exists k :: RoleName(k) == u.role && Rank(k) >= Rank(minimum)
  {
    if EvaluateRole(u, minimum) {
      var k :| RoleName(k) == u.role;
      assert Rank(k) >= Rank(minimum);
    }
  }

  lemma EvaluateRoleReflexive(id: string, minimum: Role)
    ensures EvaluateRole(User(id, RoleName(minimum)), minimum)
  {
  }

  /** Passing a minimum implies passing every lower one. */
  lemma EvaluateRoleMonotone(u: User, minimum: Role, lower: Role)
    requires Rank(lower) <= Rank(minimum)
    ensures EvaluateRole(u, minimum) ==> EvaluateRole(u, lower)
  {
  }

  lemma UnknownRoleFailsEverything(u: User, minimum: Role)
    requires forall k :: RoleName(k) != u.role
    ensures !EvaluateRole(u, minimum)
  {
  }

  lemma SuperAdminPassesEverything(id: string, minimum: Role)
    ensures EvaluateRole(User(id, "superadmin"), minimum)
  {
  }

  // The gates the server actions use.  Each one is the negation of the handler's
  // early-return condition; all of them treat a missing caller as a denial.

  /** `!user || !evaluateRole(user, "admin")` negated: admin or superadmin. */
  predicate AdminGate(caller: Option<User>) {
    caller.Some? && EvaluateRole(caller.value, AdminRole)
  }

  /** `!user || user.role !== "admin"` negated: the role is exactly "admin". */
  predicate ExactAdminGate(caller: Option<User>) {
    caller.Some? && caller.value.role == "admin"
  }

  /** `!user` negated. */
  predicate AuthenticatedGate(caller: Option<User>) {
    caller.Some?
  }

  /** The blog posts' ownership check: the author, or a role of exactly "admin". */
  predicate OwnerOrExactAdmin(caller: Option<User>, ownerId: string) {
    caller.Some? && (ownerId == caller.value.id || caller.value.role == "admin")
  }

  /** The strict-equality gate admits a subset of the hierarchy gate, and superadmin is the difference. */
  lemma ExactAdminStricter(caller: Option<User>)
    ensures ExactAdminGate(caller) ==> AdminGate(caller)
    ensures AdminGate(caller) && !ExactAdminGate(caller) <==> caller.Some? && caller.value.role == "superadmin"
  {
  }

  /** Owner-or-admin: the owner always passes, any other caller passes iff its role is exactly "admin". */
  lemma OwnerOrExactAdminCases(caller: Option<User>, ownerId: string)
    requires caller.Some?
    ensures caller.value.id == ownerId ==> OwnerOrExactAdmin(caller, ownerId)
    ensures caller.value.id != ownerId ==> (OwnerOrExactAdmin(caller, ownerId) <==> caller.value.role == "admin")
  {
  }
}
