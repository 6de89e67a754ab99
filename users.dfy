/**
 * The user table as the platform user actions (app/actions/platform/users.ts)
 * and the email-verification hook (lib/auth.ts) see it.
 */
module Users {
  import opened Wrappers
  import opened Response
  import opened Permissions
  import opened Ordering

  /** A row of the user table: only the columns these actions touch. */
  datatype Account = Account(id: string, email: string, role: string, createdAt: nat)

  function AllAccounts(): Account -> bool { (a: Account) => true }
  function AccountCreatedAt(a: Account): int { a.createdAt }

  /** `update user set role = role where id = userId`. */
  function SetRole(users: map<string, Account>, userId: string, role: string): (r: map<string, Account>)
    ensures r.Keys == users.Keys
    ensures userId in users ==> r[userId] == users[userId].(role := role)
    ensures forall k :: k in users && k != userId ==> r[k] == users[k]
  {
    if userId in users then users[userId := users[userId].(role := role)] else users
  }

  /** `update user set role = 'superadmin'` with no `where`: every row. */
  function PromoteAll(users: map<string, Account>): (r: map<string, Account>)
    ensures r.Keys == users.Keys
    ensures forall k :: k in r ==> r[k] == users[k].(role := "superadmin")
  {
    map k | k in users :: users[k].(role := "superadmin")
  }

  /** The session user a row stands for. */
  function AsCaller(a: Account): User { User(a.id, a.role) }

  /** The role string is stored as given; a stored unknown role then fails every check. */
  lemma StoredRoleDecides(users: map<string, Account>, userId: string, role: string, minimum: Role)
    requires userId in users
    ensures SetRole(users, userId, role)[userId].role == role
    ensures (forall k :: RoleName(k) != role) ==> !EvaluateRole(AsCaller(SetRole(users, userId, role)[userId]), minimum)
  {
  }

  /** An admin may promote anyone, themself included, to superadmin, after which every check passes. */
  lemma SelfPromotion(users: map<string, Account>, userId: string, minimum: Role)
    requires userId in users
    ensures EvaluateRole(AsCaller(SetRole(users, userId, "superadmin")[userId]), minimum)
  {
  }

  /** After the blanket promotion every row passes every role check, and only the role changed. */
  lemma PromotedPassEverything(users: map<string, Account>, minimum: Role)
    ensures PromoteAll(users).Keys == users.Keys
    ensures forall k :: k in users ==> EvaluateRole(AsCaller(PromoteAll(users)[k]), minimum)
    ensures forall k :: k in users ==> PromoteAll(users)[k].(role := users[k].role) == users[k]
  {
  }

  class UserTable {
    var users: map<string, Account>
    /** The paths handed to `revalidatePath`, in order. */
    ghost var revalidated: seq<string>

    ghost predicate Valid()
      reads this
    {
      forall k :: k in users ==> users[k].id == k
    }

    constructor (initial: map<string, Account>)
      requires forall k :: k in initial ==> initial[k].id == k
      ensures Valid() && users == initial && revalidated == []
    {
      users := initial;
      revalidated := [];
    }

    /** getUsers: an admin (or superadmin) gets every user, newest first. */
    method GetUsers(caller: Option<User>) returns (r: ServerResponse<seq<Account>>)
      requires Valid()
      ensures r.Success? <==> AdminGate(caller)
      ensures r.Failure? ==> r == Failure(Unauthorized)
      ensures r.Success? ==> Listing(r.data, users, AllAccounts(), AccountCreatedAt)
    {
      if !AdminGate(caller) {
        return Failure(Unauthorized);
      }
      AccountsInjective(users);
      var rows := SelectDesc(users, AllAccounts(), AccountCreatedAt);
      r := Success(rows);
    }

    /** updateUserRole: an admin sets the role of exactly the target user to any string. */
    method UpdateUserRole(caller: Option<User>, userId: string, role: string) returns (r: ServerResponse<()>)
      requires Valid()
      modifies this
      ensures Valid()
      ensures r.Success? <==> AdminGate(caller)
      ensures r.Failure? ==> r == Failure(Unauthorized) && users == old(users) && revalidated == old(revalidated)
      ensures r.Success? ==>
        && users == SetRole(old(users), userId, role)
        && revalidated == old(revalidated) + ["/admin/users"]
    {
      if !AdminGate(caller) {
        return Failure(Unauthorized);
      }
      users := SetRole(users, userId, role);
      revalidated := revalidated + ["/admin/users"];
      r := Success(());
    }

    /** The write of `afterEmailVerification` on a match: every row becomes superadmin. */
    method PromoteEveryone()
      requires Valid()
      modifies this
      ensures Valid()
      ensures users == PromoteAll(old(users))
      ensures revalidated == old(revalidated)
    {
      users := PromoteAll(users);
    }
  }

  lemma AccountsInjective(users: map<string, Account>)
    requires forall k :: k in users ==> users[k].id == k
    ensures Injective(users)
  {
  }
}
