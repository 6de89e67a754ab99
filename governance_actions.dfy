/**
 * The community governance server actions (app/actions/community/governance.ts)
 * over an in-memory copy of the governance tables.
 */
module GovernanceActions {
  import opened Wrappers
  import opened Response
  import opened Permissions
  import opened Ordering
  import opened GovernanceSchema

  /** The columns of a role an update may set; `None` leaves a column alone. */
  datatype RolePatch = RolePatch(
    name: Option<string>, description: Option<Option<string>>, isSystem: Option<bool>, createdAt: Option<nat>)

  /** `set({ ...data, updatedAt: new Date() })` on a role row. */
  function PatchRole(role: CommunityRole, d: RolePatch, now: nat): (r: CommunityRole)
    ensures r.id == role.id && r.updatedAt == now
    ensures d.createdAt.None? ==> r.createdAt == role.createdAt
    ensures d.createdAt.Some? ==> r.createdAt == d.createdAt.value
    ensures r.name == d.name.GetOr(role.name) && r.isSystem == d.isSystem.GetOr(role.isSystem)
    ensures d == RolePatch(None, None, None, None) ==> r == role.(updatedAt := now)
  {
    role.(name := d.name.GetOr(role.name), description := d.description.GetOr(role.description),
          isSystem := d.isSystem.GetOr(role.isSystem), createdAt := d.createdAt.GetOr(role.createdAt), updatedAt := now)
  }

  /**
   * `set({ ...data, updatedAt: new Date() })` on a profile row, as written:
   * a `userId` in the input is applied too.
   */
  function PatchProfileAsWritten(p: Profile, d: ProfileInput, now: nat): Profile {
    p.(userId := d.userId.GetOr(p.userId), bio := d.bio.GetOr(p.bio), skills := d.skills.GetOr(p.skills),
       githubProfile := d.githubProfile.GetOr(p.githubProfile), linkedinProfile := d.linkedinProfile.GetOr(p.linkedinProfile),
       website := d.website.GetOr(p.website), contributionCount := d.contributionCount.GetOr(p.contributionCount),
       createdAt := d.createdAt.GetOr(p.createdAt), updatedAt := now)
  }

  /** As written, an update carrying another `userId` takes the caller's profile away from them. */
  lemma ProfileUpdateMovesProfile()
    ensures var p := Profile(1, "alice", None, None, None, None, None, 0, 0, 0);
      var d := ProfileInput(Some("bob"), None, None, None, None, None, None, None);
      && ProfilesOf(map[1 := p], "alice") == {1}
      && ProfilesOf(map[1 := PatchProfileAsWritten(p, d, 5)], "alice") == {}
  {
    var p := Profile(1, "alice", None, None, None, None, None, 0, 0, 0);
    var d := ProfileInput(Some("bob"), None, None, None, None, None, None, None);
    assert PatchProfileAsWritten(p, d, 5).userId == "bob";
  }

  /** The update as the insert branch intends it: the profile stays the caller's. */
  function PatchProfile(p: Profile, d: ProfileInput, now: nat): (r: Profile)
    ensures r.id == p.id && r.userId == p.userId && r.updatedAt == now
    ensures d.createdAt.None? ==> r.createdAt == p.createdAt
    ensures d.createdAt.Some? ==> r.createdAt == d.createdAt.value
    ensures r == PatchProfileAsWritten(p, d, now).(userId := p.userId)
  {
    p.(bio := d.bio.GetOr(p.bio), skills := d.skills.GetOr(p.skills),
       githubProfile := d.githubProfile.GetOr(p.githubProfile), linkedinProfile := d.linkedinProfile.GetOr(p.linkedinProfile),
       website := d.website.GetOr(p.website), contributionCount := d.contributionCount.GetOr(p.contributionCount),
       createdAt := d.createdAt.GetOr(p.createdAt), updatedAt := now)
  }

  function AllRoles(): CommunityRole -> bool { (r: CommunityRole) => true }
  function RoleCreatedAt(r: CommunityRole): int { r.createdAt }

  /** No role in `roles` has this name. */
  predicate RoleNameFree(roles: map<int, CommunityRole>, name: string) {
    forall k :: k in roles ==> roles[k].name != name
  }

  class GovernanceStore {
    var roles: map<int, CommunityRole>
    var permissions: map<int, Permission>
    var rolePermissions: set<RolePermission>
    var userRoles: map<(string, int), CommunityUserRole>
    var profiles: map<int, Profile>
    var nextRoleId: int
    var nextProfileId: int
    /** The paths handed to `revalidatePath`, in order. */
    ghost var revalidated: seq<string>

    ghost predicate Valid()
      reads this
    {
      && RolesOk(roles, nextRoleId)
      && PermissionsOk(permissions)
      && RolePermissionsOk(rolePermissions, roles, permissions)
      && UserRolesOk(userRoles, roles)
      && ProfilesOk(profiles, nextProfileId)
    }

    /** Nothing in the tables, nothing in the log. */
    ghost predicate Unchanged(
      roles0: map<int, CommunityRole>, links0: set<RolePermission>, userRoles0: map<(string, int), CommunityUserRole>,
      profiles0: map<int, Profile>, log0: seq<string>)
      reads this
    {
      roles == roles0 && rolePermissions == links0 && userRoles == userRoles0 && profiles == profiles0 && revalidated == log0
    }

    constructor ()
      ensures Valid()
      ensures roles == map[] && permissions == map[] && rolePermissions == {}
      ensures userRoles == map[] && profiles == map[] && revalidated == []
    {
      roles, permissions, rolePermissions, userRoles, profiles := map[], map[], {}, map[], map[];
      nextRoleId, nextProfileId := 1, 1;
      revalidated := [];
    }

    /** createRole: an admin (or superadmin) inserts a role with a free name. */
    method CreateRole(caller: Option<User>, input: NewRole, now: nat) returns (r: ServerResponse<CommunityRole>)
      requires Valid()
      modifies this
      ensures Valid()
      ensures !AdminGate(caller) ==> r == Failure(Unauthorized)
      ensures r.Success? <==> AdminGate(caller) && RoleNameFree(old(roles), input.name)
      ensures r.Failure? ==> Unchanged(old(roles), old(rolePermissions), old(userRoles), old(profiles), old(revalidated))
      ensures r.Success? ==>
        && r.data == RoleRow(r.data.id, input, now) && r.data.id !in old(roles)
        && roles == old(roles)[r.data.id := r.data]
        && revalidated == old(revalidated) + ["/admin/roles"]
      ensures permissions == old(permissions) && rolePermissions == old(rolePermissions)
      ensures userRoles == old(userRoles) && profiles == old(profiles)
    {
      if !AdminGate(caller) {
        return Failure(Unauthorized);
      }
      if !RoleNameFree(roles, input.name) {
        return Failure(DuplicateKey);
      }
      var role := RoleRow(nextRoleId, input, now);
      RolesGrowOk(roles, roles[role.id := role], permissions, rolePermissions, userRoles);
      roles := roles[role.id := role];
      nextRoleId := nextRoleId + 1;
      revalidated := revalidated + ["/admin/roles"];
      r := Success(role);
    }

    /** getRoles: every role, each once; the query names no order. */
    method GetRoles() returns (r: ServerResponse<seq<CommunityRole>>)
      requires Valid()
      ensures r.Success? && multiset(r.data) == multiset(Selected(roles, AllRoles()))
    {
      RolesInjective(roles, nextRoleId);
      var rows := SelectDesc(roles, AllRoles(), RoleCreatedAt);
      r := Success(rows);
    }

    /** updateRole: an admin patches the row; a missing row is a success without data. */
    method UpdateRole(caller: Option<User>, id: int, patch: RolePatch, now: nat) returns (r: ServerResponse<Option<CommunityRole>>)
      requires Valid()
      modifies this
      ensures Valid()
      ensures !AdminGate(caller) ==> r == Failure(Unauthorized)
      ensures r.Failure? ==> Unchanged(old(roles), old(rolePermissions), old(userRoles), old(profiles), old(revalidated))
      ensures AdminGate(caller) && id !in old(roles) ==>
        r == Success(None) && roles == old(roles) && revalidated == old(revalidated) + ["/admin/roles"]
      ensures AdminGate(caller) && id in old(roles) ==>
        (r.Success? <==> RoleNameFree(old(roles) - {id}, PatchRole(old(roles)[id], patch, now).name))
      ensures r.Success? && id in old(roles) ==>
        && r.data == Some(PatchRole(old(roles)[id], patch, now))
        && roles == old(roles)[id := r.data.value]
        && revalidated == old(revalidated) + ["/admin/roles"]
      ensures permissions == old(permissions) && rolePermissions == old(rolePermissions)
      ensures userRoles == old(userRoles) && profiles == old(profiles)
    {
      if !AdminGate(caller) {
        return Failure(Unauthorized);
      }
      if id !in roles {
        revalidated := revalidated + ["/admin/roles"];
        return Success(None);
      }
      var role := PatchRole(roles[id], patch, now);
      if !RoleNameFree(roles - {id}, role.name) {
        return Failure(DuplicateKey);
      }
      assert forall k :: k in roles && k != id ==> k in roles - {id};
      RolesGrowOk(roles, roles[id := role], permissions, rolePermissions, userRoles);
      roles := roles[id := role];
      revalidated := revalidated + ["/admin/roles"];
      r := Success(Some(role));
    }

    /** deleteRole: an admin deletes the role; its permission links and user-role rows go with it. */
    method DeleteRole(caller: Option<User>, id: int) returns (r: ServerResponse<()>)
      requires Valid()
      modifies this
      ensures Valid()
      ensures r.Success? <==> AdminGate(caller)
      ensures r.Failure? ==> r == Failure(Unauthorized)
      ensures r.Failure? ==> Unchanged(old(roles), old(rolePermissions), old(userRoles), old(profiles), old(revalidated))
      ensures r.Success? ==>
        && roles == old(roles) - {id}
        && rolePermissions == LinksWithoutRole(old(rolePermissions), id)
        && userRoles == UserRolesWithoutRole(old(userRoles), id)
        && revalidated == old(revalidated) + ["/admin/roles"]
      ensures permissions == old(permissions) && profiles == old(profiles)
    {
      if !AdminGate(caller) {
        return Failure(Unauthorized);
      }
      DeleteRoleCascadeOk(roles, nextRoleId, permissions, rolePermissions, userRoles, id);
      rolePermissions := LinksWithoutRole(rolePermissions, id);
      userRoles := UserRolesWithoutRole(userRoles, id);
      roles := roles - {id};
      revalidated := revalidated + ["/admin/roles"];
      r := Success(());
    }

    /** assignRoleToUser: an admin gives `userId` the role, recorded as assigned by the caller. */
    method AssignRoleToUser(caller: Option<User>, userId: string, roleId: int, now: nat) returns (r: ServerResponse<()>)
      requires Valid()
      modifies this
      ensures Valid()
      ensures !AdminGate(caller) ==> r == Failure(Unauthorized)
      ensures r.Success? <==> AdminGate(caller) && (userId, roleId) !in old(userRoles) && roleId in old(roles)
      ensures r.Failure? ==> Unchanged(old(roles), old(rolePermissions), old(userRoles), old(profiles), old(revalidated))
      ensures r.Success? ==>
        && userRoles == old(userRoles)[(userId, roleId) := CommunityUserRole(userId, roleId, now, Some(caller.value.id))]
        && revalidated == old(revalidated) + ["/users/" + userId]
      ensures roles == old(roles) && permissions == old(permissions)
      ensures rolePermissions == old(rolePermissions) && profiles == old(profiles)
    {
      if !AdminGate(caller) {
        return Failure(Unauthorized);
      }
      if (userId, roleId) in userRoles {
        return Failure(DuplicateKey);
      }
      if roleId !in roles {
        return Failure(ForeignKeyViolation);
      }
      userRoles := userRoles[(userId, roleId) := CommunityUserRole(userId, roleId, now, Some(caller.value.id))];
      revalidated := revalidated + ["/users/" + userId];
      r := Success(());
    }

    /** removeRoleFromUser: only a role of exactly "admin" deletes the one (user, role) row. */
    method RemoveRoleFromUser(caller: Option<User>, userId: string, roleId: int) returns (r: ServerResponse<()>)
      requires Valid()
      modifies this
      ensures Valid()
      ensures r.Success? <==> ExactAdminGate(caller)
      ensures r.Failure? ==> r == Failure(Unauthorized)
      ensures r.Failure? ==> Unchanged(old(roles), old(rolePermissions), old(userRoles), old(profiles), old(revalidated))
      ensures r.Success? ==>
        && userRoles == old(userRoles) - {(userId, roleId)}
        && revalidated == old(revalidated) + ["/users/" + userId]
      ensures roles == old(roles) && permissions == old(permissions)
      ensures rolePermissions == old(rolePermissions) && profiles == old(profiles)
    {
      if !ExactAdminGate(caller) {
        return Failure(Unauthorized);
      }
      userRoles := userRoles - {(userId, roleId)};
      revalidated := revalidated + ["/users/" + userId];
      r := Success(());
    }

    /** getContributorProfile: the user's profile if there is one; no profile is a success without data. */
    method GetContributorProfile(userId: string) returns (r: ServerResponse<Option<Profile>>)
      requires Valid()
      ensures r.Success?
      ensures r.data.None? <==> ProfilesOf(profiles, userId) == {}
      ensures r.data.Some? ==> ProfilesOf(profiles, userId) == {r.data.value.id} && profiles[r.data.value.id] == r.data.value
    {
      if k :| k in profiles && profiles[k].userId == userId {
        OnlyProfile(profiles, nextProfileId, k);
        r := Success(Some(profiles[k]));
      } else {
        NoProfile(profiles, userId);
        r := Success(None);
      }
    }

    /**
     * updateContributorProfile: the caller's profile is patched if it exists,
     * otherwise one is inserted for the caller; either way the caller then
     * owns exactly that one profile, and no other profile changes.
     */
    method UpdateContributorProfile(caller: Option<User>, input: ProfileInput, now: nat) returns (r: ServerResponse<Profile>)
      requires Valid()
      modifies this
      ensures Valid()
      ensures r.Success? <==> caller.Some?
      ensures r.Failure? ==> r == Failure(Unauthorized)
      ensures r.Failure? ==> Unchanged(old(roles), old(rolePermissions), old(userRoles), old(profiles), old(revalidated))
      ensures r.Success? ==>
        && r.data.userId == caller.value.id
        && ProfilesOf(profiles, caller.value.id) == {r.data.id} && profiles[r.data.id] == r.data
        && profiles == old(profiles)[r.data.id := r.data]
        && revalidated == old(revalidated) + ["/profile"]
      ensures r.Success? && r.data.id in old(profiles) ==> r.data == PatchProfile(old(profiles)[r.data.id], input, now)
      ensures r.Success? && r.data.id !in old(profiles) ==>
        && ProfilesOf(old(profiles), caller.value.id) == {}
        && r.data == ProfileRow(r.data.id, caller.value.id, input, now)
      ensures r.Success? ==> forall k :: k in old(profiles) && old(profiles)[k].userId != caller.value.id ==>
        k in profiles && profiles[k] == old(profiles)[k]
      ensures roles == old(roles) && permissions == old(permissions)
      ensures rolePermissions == old(rolePermissions) && userRoles == old(userRoles)
    {
      if caller.None? {
        return Failure(Unauthorized);
      }
      var userId := caller.value.id;
      var profile;
      if k :| k in profiles && profiles[k].userId == userId {
        OnlyProfile(profiles, nextProfileId, k);
        profile := PatchProfile(profiles[k], input, now);
      } else {
        NoProfile(profiles, userId);
        profile := ProfileRow(nextProfileId, userId, input, now);
        nextProfileId := nextProfileId + 1;
      }
      ProfileReplaced(profiles, profile);
      profiles := profiles[profile.id := profile];
      revalidated := revalidated + ["/profile"];
      r := Success(profile);
    }
  }

  lemma RolesInjective(roles: map<int, CommunityRole>, next: int)
    requires RolesOk(roles, next)
    ensures Injective(roles)
  {
  }

  /** The profile at `k` is its owner's only one. */
  lemma OnlyProfile(profiles: map<int, Profile>, next: int, k: int)
    requires ProfilesOk(profiles, next) && k in profiles
    ensures ProfilesOf(profiles, profiles[k].userId) == {k}
  {
    forall j | j in ProfilesOf(profiles, profiles[k].userId) ensures j == k {
    }
  }

  /** A user none of whose rows matched owns no profile. */
  lemma NoProfile(profiles: map<int, Profile>, userId: string)
    requires forall k :: k in profiles ==> profiles[k].userId != userId
    ensures ProfilesOf(profiles, userId) == {}
  {
    forall j | j in ProfilesOf(profiles, userId) ensures false {
    }
  }

  /** Storing `p` at its own key: its owner then owns exactly that key if they owned at most that key before. */
  lemma ProfileReplaced(profiles: map<int, Profile>, p: Profile)
    requires ProfilesOf(profiles, p.userId) <= {p.id}
    ensures ProfilesOf(profiles[p.id := p], p.userId) == {p.id}
  {
    var m := profiles[p.id := p];
    forall j | j in ProfilesOf(m, p.userId) ensures j == p.id {
      assert j != p.id ==> j in ProfilesOf(profiles, p.userId);
    }
  }
}
