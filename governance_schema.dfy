/**
 * The community governance tables (core/db/schemas/community/governance.ts):
 * roles, permissions, their links, user roles and contributor profiles.
 */
module GovernanceSchema {
  import opened Wrappers

  datatype CommunityRole = CommunityRole(id: int, name: string, description: Option<string>, isSystem: bool, createdAt: nat, updatedAt: nat)

  datatype Permission = Permission(id: int, code: string, description: Option<string>, createdAt: nat)

  /** A row of community_role_permissions; the pair is the table's primary key. */
  datatype RolePermission = RolePermission(roleId: int, permissionId: int)

  /** A row of community_user_roles, keyed by (userId, roleId). */
  datatype CommunityUserRole = CommunityUserRole(userId: string, roleId: int, assignedAt: nat, assignedBy: Option<string>)

  datatype Profile = Profile(
    id: int, userId: string, bio: Option<string>, skills: Option<seq<string>>,
    githubProfile: Option<string>, linkedinProfile: Option<string>, website: Option<string>,
    contributionCount: int, createdAt: nat, updatedAt: nat)

  /** The insertable columns of a role (`NewCommunityRole`); `None` takes the column default. */
  datatype NewRole = NewRole(name: string, description: Option<string>, isSystem: Option<bool>)

  function RoleRow(id: int, input: NewRole, now: nat): CommunityRole {
    CommunityRole(id, input.name, input.description, input.isSystem.GetOr(false), now, now)
  }

  /**
   * The columns of a contributor profile a caller may send
   * (`Partial<$inferInsert>`): `userId` among them.
   */
  datatype ProfileInput = ProfileInput(
    userId: Option<string>, bio: Option<Option<string>>, skills: Option<Option<seq<string>>>,
    githubProfile: Option<Option<string>>, linkedinProfile: Option<Option<string>>,
    website: Option<Option<string>>, contributionCount: Option<int>, createdAt: Option<nat>)

  /** The row an insert of `input` produces, owned by `userId` whatever the input says. */
  function ProfileRow(id: int, userId: string, input: ProfileInput, now: nat): Profile {
    Profile(id, userId, input.bio.GetOr(None), input.skills.GetOr(None), input.githubProfile.GetOr(None),
            input.linkedinProfile.GetOr(None), input.website.GetOr(None), input.contributionCount.GetOr(0),
            input.createdAt.GetOr(now), now)
  }

  /** A role inserted without `isSystem` is not a system role; a profile without a count starts at 0. */
  lemma GovernanceDefaults(id: int, input: NewRole, profileId: int, userId: string, profile: ProfileInput, now: nat)
    ensures input.isSystem.None? ==> !RoleRow(id, input, now).isSystem
    ensures profile.contributionCount.None? ==> ProfileRow(profileId, userId, profile, now).contributionCount == 0
    ensures ProfileRow(profileId, userId, profile, now).userId == userId
  {
  }

  // Constraints of the tables.  `next` is the serial sequence's next value.

  ghost predicate RolesOk(roles: map<int, CommunityRole>, next: int) {
    && (forall k :: k in roles ==> roles[k].id == k && k < next)
    && (forall a, b :: a in roles && b in roles && roles[a].name == roles[b].name ==> a == b)
  }

  ghost predicate PermissionsOk(permissions: map<int, Permission>) {
    && (forall k :: k in permissions ==> permissions[k].id == k)
    && (forall a, b :: a in permissions && b in permissions && permissions[a].code == permissions[b].code ==> a == b)
  }

  ghost predicate RolePermissionsOk(links: set<RolePermission>, roles: map<int, CommunityRole>, permissions: map<int, Permission>) {
    forall l :: l in links ==> l.roleId in roles && l.permissionId in permissions
  }

  ghost predicate UserRolesOk(userRoles: map<(string, int), CommunityUserRole>, roles: map<int, CommunityRole>) {
    forall k :: k in userRoles ==> k == (userRoles[k].userId, userRoles[k].roleId) && userRoles[k].roleId in roles
  }

  /** Profiles carry their key, and `userId` is unique: at most one profile per user. */
  ghost predicate ProfilesOk(profiles: map<int, Profile>, next: int) {
    && (forall k :: k in profiles ==> profiles[k].id == k && k < next)
    && (forall a, b :: a in profiles && b in profiles && profiles[a].userId == profiles[b].userId ==> a == b)
  }

  /** The profiles `userId` owns. */
  function ProfilesOf(profiles: map<int, Profile>, userId: string): (r: set<int>)
    ensures forall k :: k in r <==> k in profiles && profiles[k].userId == userId
  {
    set k | k in profiles && profiles[k].userId == userId
  }

  /** Under the unique index a user owns no profile or exactly one. */
  lemma {:induction false} AtMostOneProfile(profiles: map<int, Profile>, next: int, userId: string)
    requires ProfilesOk(profiles, next)
    ensures |ProfilesOf(profiles, userId)| <= 1
  {
    var s := ProfilesOf(profiles, userId);
    assert forall a, b :: a in s && b in s ==> a == b;
    AtMostOne(s);
  }

  /** A set whose elements are all equal has at most one element. */
  lemma AtMostOne(s: set<int>)
    requires forall a, b :: a in s && b in s ==> a == b
    ensures |s| <= 1
  {
    if k :| k in s {
      assert forall x :: x in s <==> x in {k};
      assert s == {k};
    } else {
      assert forall x :: x in s <==> x in {};
      assert s == {};
    }
  }

  // ON DELETE CASCADE from community_roles.

  function LinksWithoutRole(links: set<RolePermission>, roleId: int): (r: set<RolePermission>)
    ensures forall l :: l in r <==> l in links && l.roleId != roleId
  {
    set l | l in links && l.roleId != roleId
  }

  function UserRolesWithoutRole(userRoles: map<(string, int), CommunityUserRole>, roleId: int): (r: map<(string, int), CommunityUserRole>)
    ensures forall k :: k in r <==> k in userRoles && userRoles[k].roleId != roleId
    ensures forall k :: k in r ==> r[k] == userRoles[k]
  {
    map k | k in userRoles && userRoles[k].roleId != roleId :: userRoles[k]
  }

  /** Deleting role `id` takes its permission links and user-role rows with it and keeps every constraint. */
  lemma DeleteRoleCascadeOk(
    roles: map<int, CommunityRole>, next: int, permissions: map<int, Permission>,
    links: set<RolePermission>, userRoles: map<(string, int), CommunityUserRole>, id: int)
    requires RolesOk(roles, next)
    requires RolePermissionsOk(links, roles, permissions)
    requires UserRolesOk(userRoles, roles)
    ensures RolesOk(roles - {id}, next)
    ensures RolePermissionsOk(LinksWithoutRole(links, id), roles - {id}, permissions)
    ensures UserRolesOk(UserRolesWithoutRole(userRoles, id), roles - {id})
  {
  }

  /** Changing roles without removing any keeps the references valid. */
  lemma RolesGrowOk(
    roles: map<int, CommunityRole>, roles': map<int, CommunityRole>, permissions: map<int, Permission>,
    links: set<RolePermission>, userRoles: map<(string, int), CommunityUserRole>)
    requires roles.Keys <= roles'.Keys
    requires RolePermissionsOk(links, roles, permissions)
    requires UserRolesOk(userRoles, roles)
    ensures RolePermissionsOk(links, roles', permissions)
    ensures UserRolesOk(userRoles, roles')
  {
  }

  // Deleting a user: their own role rows and profile cascade away, and rows they assigned lose `assignedBy`.

  function UserRolesAfterUserDelete(userRoles: map<(string, int), CommunityUserRole>, userId: string): (r: map<(string, int), CommunityUserRole>)
    ensures forall k :: k in r <==> k in userRoles && userRoles[k].userId != userId
  {
    map k | k in userRoles && userRoles[k].userId != userId ::
      if userRoles[k].assignedBy == Some(userId) then userRoles[k].(assignedBy := None) else userRoles[k]
  }

  function ProfilesAfterUserDelete(profiles: map<int, Profile>, userId: string): (r: map<int, Profile>)
    ensures forall k :: k in r <==> k in profiles && profiles[k].userId != userId
    ensures forall k :: k in r ==> r[k] == profiles[k]
  {
    map k | k in profiles && profiles[k].userId != userId :: profiles[k]
  }

  /**
   * After the delete no row refers to the user: the rows they assigned stay,
   * with only `assignedBy` cleared, and the constraints still hold.
   */
  lemma UserDeleteOk(userRoles: map<(string, int), CommunityUserRole>, roles: map<int, CommunityRole>,
                     profiles: map<int, Profile>, next: int, userId: string)
    requires UserRolesOk(userRoles, roles)
    requires ProfilesOk(profiles, next)
    ensures UserRolesOk(UserRolesAfterUserDelete(userRoles, userId), roles)
    ensures ProfilesOk(ProfilesAfterUserDelete(profiles, userId), next)
    ensures forall k :: k in UserRolesAfterUserDelete(userRoles, userId) ==>
      UserRolesAfterUserDelete(userRoles, userId)[k].assignedBy != Some(userId)
    ensures forall k :: k in userRoles && userRoles[k].userId != userId ==>
      UserRolesAfterUserDelete(userRoles, userId)[k] ==
        userRoles[k].(assignedBy := if userRoles[k].assignedBy == Some(userId) then None else userRoles[k].assignedBy)
    ensures ProfilesOf(ProfilesAfterUserDelete(profiles, userId), userId) == {}
  {
  }
}
