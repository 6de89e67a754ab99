/** The authorized-email promotion and the `role` field declaration of lib/auth.ts. */
module Auth {
  import opened Wrappers
  import opened Text
  import opened Env
  import opened Users

  /** `AUTHORIZED_EMAILS.split(" ").map(e => e.toLowerCase())`. */
  function AuthorizedList(value: string): (r: seq<string>)
    ensures |r| == |Split(value, ' ')|
    ensures forall i :: 0 <= i < |r| ==> r[i] == Lower(Split(value, ' ')[i])
  {
    seq(|Split(value, ' ')|, i requires 0 <= i < |Split(value, ' ')| => Lower(Split(value, ' ')[i]))
  }

  /** The list holds exactly the variable's text, lower-cased and cut at each space. */
  lemma AuthorizedListJoin(value: string)
    ensures Join(AuthorizedList(value), ' ') == Lower(value)
  {
    var pieces := Split(value, ' ');
    assert AuthorizedList(value) == seq(|pieces|, i requires 0 <= i < |pieces| => Lower(pieces[i]));
    JoinLower(pieces, ' ');
    JoinSplit(value, ' ');
  }

  /** `authorizedEmails.includes(email.toLowerCase())`. */
  predicate IsAuthorized(value: string, email: string) {
    Lower(email) in AuthorizedList(value)
  }

  /** Membership ignores ASCII case on the verified email. */
  lemma AuthorizedIgnoresCase(value: string, email: string, other: string)
    requires Lower(email) == Lower(other)
    ensures IsAuthorized(value, email) <==> IsAuthorized(value, other)
  {
  }

  /** Every single-space-separated entry, whatever its case, is authorized. */
  lemma EntriesAreAuthorized(value: string, i: nat)
    requires i < |Split(value, ' ')|
    ensures IsAuthorized(value, Split(value, ' ')[i])
  {
    assert AuthorizedList(value)[i] == Lower(Split(value, ' ')[i]);
  }

  /**
   * An example on one input (the general fact is AuthorizedListJoin): entries
   * are split on one space exactly, so "a  b" holds an empty entry between the
   * two addresses.
   */
  lemma DoubleSpaceGivesEmptyEntry()
    ensures Split("a  b", ' ') == ["a", "", "b"]
  {
    SplitFree("b", ' ');
    SplitPrefix("", ' ', "b");
    assert "" + [' '] + "b" == " b";
    SplitPrefix("a", ' ', " b");
    assert "a" + [' '] + " b" == "a  b";
  }

  /**
   * afterEmailVerification: read AUTHORIZED_EMAILS (a throw when it is not
   * set); on a match every user row, not just the verified one, becomes
   * superadmin; otherwise nothing changes.
   */
  method AfterEmailVerification(table: UserTable, env: map<string, string>, email: string) returns (r: Result<()>)
    requires table.Valid()
    modifies table
    ensures table.Valid()
    ensures GetEnv(env, "AUTHORIZED_EMAILS", None).Err? ==> r == Err(NotSetMessage("AUTHORIZED_EMAILS"))
    ensures r.Ok? <==> GetEnv(env, "AUTHORIZED_EMAILS", None).Ok?
    ensures r.Ok? && IsAuthorized(GetEnv(env, "AUTHORIZED_EMAILS", None).value, email) ==>
      table.users == PromoteAll(old(table.users))
    ensures !(r.Ok? && IsAuthorized(GetEnv(env, "AUTHORIZED_EMAILS", None).value, email)) ==>
      table.users == old(table.users)
    ensures table.revalidated == old(table.revalidated)
  {
    var value := GetEnv(env, "AUTHORIZED_EMAILS", None);
    if value.Err? {
      return Err(value.error);
    }
    if IsAuthorized(value.value, email) {
      table.PromoteEveryone();
    }
    r := Ok(());
  }

  /** The declaration of one of better-auth's `additionalFields`. */
  datatype FieldSpec = FieldSpec(name: string, kind: string, required: bool, input: bool)

  /** `user.additionalFields`, in declaration order. */
  const AdditionalFields: seq<FieldSpec> := [
    FieldSpec("lastName", "string", false, true),
    FieldSpec("handle", "string", false, true),
    FieldSpec("profilePictureUrl", "string", false, true),
    FieldSpec("socialLinks", "json", false, true),
    FieldSpec("birthdate", "date", false, true),
    FieldSpec("gender", "string", false, true),
    FieldSpec("role", "string", true, false)
  ]

  /** Whether a sign-up request may carry the field `name`. */
  predicate AcceptsInput(fields: seq<FieldSpec>, name: string) {
    exists i :: 0 <= i < |fields| && fields[i].name == name && fields[i].input
  }

  /** `role` is the one required additional field, and a caller cannot supply it. */
  lemma RoleIsServerOnly()
    ensures !AcceptsInput(AdditionalFields, "role")
    ensures forall i :: 0 <= i < |AdditionalFields| ==> (AdditionalFields[i].required <==> AdditionalFields[i].name == "role")
    ensures AdditionalFields[6] == FieldSpec("role", "string", true, false)
  {
  }
}
