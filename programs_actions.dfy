/**
 * The community program server actions (app/actions/community/programs.ts)
 * over an in-memory copy of the program tables.
 */
module ProgramsActions {
  import opened Wrappers
  import opened Text
  import opened Response
  import opened Permissions
  import opened Ordering
  import opened ProgramsSchema

  const ProgramNotFound: string := "Program not found"

  /** The columns of a program an update may set; `None` leaves a column alone. */
  datatype ProgramPatch = ProgramPatch(
    title: Option<string>, slug: Option<string>, description: Option<string>,
    status: Option<ProgramStatus>, startDate: Option<Option<nat>>, endDate: Option<Option<nat>>,
    createdAt: Option<nat>)

  /** The columns of a project an update may set; `None` leaves a column alone. */
  datatype ProjectPatch = ProjectPatch(
    programId: Option<Option<int>>, title: Option<string>, slug: Option<string>,
    description: Option<string>, repositoryUrl: Option<Option<string>>, status: Option<ProgramStatus>,
    createdAt: Option<nat>)

  /** `set({ ...data, updatedAt: new Date() })` on a program row. */
  function PatchProgram(p: Program, d: ProgramPatch, now: nat): Program {
    p.(title := d.title.GetOr(p.title), slug := d.slug.GetOr(p.slug),
       description := d.description.GetOr(p.description), status := d.status.GetOr(p.status),
       startDate := d.startDate.GetOr(p.startDate), endDate := d.endDate.GetOr(p.endDate),
       createdAt := d.createdAt.GetOr(p.createdAt), updatedAt := now)
  }

  /** `set({ ...data, updatedAt: new Date() })` on a project row. */
  function PatchProject(p: Project, d: ProjectPatch, now: nat): Project {
    p.(programId := d.programId.GetOr(p.programId), title := d.title.GetOr(p.title),
       slug := d.slug.GetOr(p.slug), description := d.description.GetOr(p.description),
       repositoryUrl := d.repositoryUrl.GetOr(p.repositoryUrl), status := d.status.GetOr(p.status),
       createdAt := d.createdAt.GetOr(p.createdAt), updatedAt := now)
  }

  /** An update keeps the row's id and creation time and stamps `updatedAt`. */
  lemma PatchKeepsIdentity(p: Program, d: ProgramPatch, q: Project, e: ProjectPatch, now: nat)
    ensures PatchProgram(p, d, now).id == p.id
    ensures d.createdAt.None? ==> PatchProgram(p, d, now).createdAt == p.createdAt
    ensures d.createdAt.Some? ==> PatchProgram(p, d, now).createdAt == d.createdAt.value
    ensures PatchProgram(p, d, now).updatedAt == now
    ensures PatchProject(q, e, now).id == q.id
    ensures e.createdAt.None? ==> PatchProject(q, e, now).createdAt == q.createdAt
    ensures e.createdAt.Some? ==> PatchProject(q, e, now).createdAt == e.createdAt.value
    ensures PatchProject(q, e, now).updatedAt == now
    ensures d.slug.None? ==> PatchProgram(p, d, now).slug == p.slug
    ensures e.programId.None? ==> PatchProject(q, e, now).programId == q.programId
  {
  }

  /** `programId ? eq(projects.programId, programId) : undefined`: 0 and a missing id are falsy. */
  function ProjectFilter(programId: Option<int>): Project -> bool {
    if programId.Some? && programId.value != 0 then (p: Project) => p.programId == programId
    else (p: Project) => true
  }

  /** A falsy program id filters nothing; any other keeps exactly the projects of that program. */
  lemma ProjectFilterCases(programId: Option<int>, p: Project)
    ensures (programId.None? || programId == Some(0)) ==> ProjectFilter(programId)(p)
    ensures programId.Some? && programId.value != 0 ==> (ProjectFilter(programId)(p) <==> p.programId == programId)
  {
  }

  function AllPrograms(): Program -> bool { (p: Program) => true }
  function ProgramCreatedAt(p: Program): int { p.createdAt }
  function ProjectCreatedAt(p: Project): int { p.createdAt }

  /** No program in `programs` has this slug. */
  predicate ProgramSlugFree(programs: map<int, Program>, slug: string) {
    forall k :: k in programs ==> programs[k].slug != slug
  }

  /** No project in `projects` has this slug. */
  predicate ProjectSlugFree(projects: map<int, Project>, slug: string) {
    forall k :: k in projects ==> projects[k].slug != slug
  }

  predicate ProgramRefOk(programs: map<int, Program>, programId: Option<int>) {
    programId.Some? ==> programId.value in programs
  }

  class ProgramStore {
    var programs: map<int, Program>
    var leads: map<(int, string), Lead>
    var projects: map<int, Project>
    var members: map<(int, string), Member>
    var history: map<int, StatusChange>
    var nextProgramId: int
    var nextProjectId: int
    var nextHistoryId: int
    /** The paths handed to `revalidatePath`, in order. */
    ghost var revalidated: seq<string>

    ghost predicate Valid()
      reads this
    {
      && ProgramsOk(programs, nextProgramId)
      && LeadsOk(leads, programs)
      && ProjectsOk(projects, nextProjectId, programs)
      && MembersOk(members, projects)
      && HistoryOk(history, nextHistoryId, programs)
    }

    /** Nothing in the tables, nothing in the log. */
    ghost predicate Unchanged(
      programs0: map<int, Program>, leads0: map<(int, string), Lead>, projects0: map<int, Project>,
      members0: map<(int, string), Member>, history0: map<int, StatusChange>, log0: seq<string>)
      reads this
    {
      && programs == programs0 && leads == leads0 && projects == projects0
      && members == members0 && history == history0 && revalidated == log0
    }

    constructor ()
      ensures Valid()
      ensures programs == map[] && leads == map[] && projects == map[]
      ensures members == map[] && history == map[] && revalidated == []
    {
      programs, leads, projects, members, history := map[], map[], map[], map[], map[];
      nextProgramId, nextProjectId, nextHistoryId := 1, 1, 1;
      revalidated := [];
    }

    /** createProgram: an admin (or superadmin) inserts a program with a free slug. */
    method CreateProgram(caller: Option<User>, input: NewProgram, now: nat) returns (r: ServerResponse<Program>)
      requires Valid()
      modifies this
      ensures Valid()
      ensures !AdminGate(caller) ==> r == Failure(Unauthorized)
      ensures r.Success? <==> AdminGate(caller) && ProgramSlugFree(old(programs), input.slug)
      ensures r.Failure? ==> Unchanged(old(programs), old(leads), old(projects), old(members), old(history), old(revalidated))
      ensures r.Success? ==>
        && r.data == ProgramRow(r.data.id, input, now) && r.data.id !in old(programs)
        && programs == old(programs)[r.data.id := r.data]
        && revalidated == old(revalidated) + ["/programs"]
      ensures leads == old(leads) && projects == old(projects) && members == old(members) && history == old(history)
    {
      if !AdminGate(caller) {
        return Failure(Unauthorized);
      }
      if !ProgramSlugFree(programs, input.slug) {
        return Failure(DuplicateKey);
      }
      var program := ProgramRow(nextProgramId, input, now);
      programs := programs[program.id := program];
      nextProgramId := nextProgramId + 1;
      revalidated := revalidated + ["/programs"];
      r := Success(program);
    }

    /** getPrograms: every program, newest first. */
    method GetPrograms() returns (r: ServerResponse<seq<Program>>)
      requires Valid()
      ensures r.Success? && Listing(r.data, programs, AllPrograms(), ProgramCreatedAt)
    {
      ProgramsInjective(programs, nextProgramId);
      var rows := SelectDesc(programs, AllPrograms(), ProgramCreatedAt);
      r := Success(rows);
    }

    /** getProgramBySlug: the program with that slug, or "Program not found". */
    method GetProgramBySlug(slug: string) returns (r: ServerResponse<Program>)
      requires Valid()
      ensures r.Success? <==> exists k :: k in programs && programs[k].slug == slug
      ensures r.Success? ==> r.data.id in programs && programs[r.data.id] == r.data && r.data.slug == slug
      ensures r.Failure? ==> r.message == ProgramNotFound
    {
      if exists k :: k in programs && programs[k].slug == slug {
        var k :| k in programs && programs[k].slug == slug;
        r := Success(programs[k]);
      } else {
        r := Failure(ProgramNotFound);
      }
    }

    /**
     * updateProgram: an admin patches the row with that id.  No such row is
     * not an error: the answer is a success without data (`returning()` is empty).
     */
    method UpdateProgram(caller: Option<User>, id: int, patch: ProgramPatch, now: nat)
      returns (r: ServerResponse<Option<Program>>)
      requires Valid()
      modifies this
      ensures Valid()
      ensures !AdminGate(caller) ==> r == Failure(Unauthorized)
      ensures r.Failure? ==> Unchanged(old(programs), old(leads), old(projects), old(members), old(history), old(revalidated))
      ensures AdminGate(caller) && id !in old(programs) ==>
        r == Success(None) && programs == old(programs) && revalidated == old(revalidated) + ["/programs"]
      ensures AdminGate(caller) && id in old(programs) ==>
        (r.Success? <==> ProgramSlugFree(old(programs) - {id}, PatchProgram(old(programs)[id], patch, now).slug))
      ensures r.Success? && id in old(programs) ==>
        && r.data == Some(PatchProgram(old(programs)[id], patch, now))
        && programs == old(programs)[id := r.data.value]
        && revalidated == old(revalidated) + ["/programs"]
      ensures leads == old(leads) && projects == old(projects) && members == old(members) && history == old(history)
    {
      if !AdminGate(caller) {
        return Failure(Unauthorized);
      }
      if id !in programs {
        revalidated := revalidated + ["/programs"];
        return Success(None);
      }
      var program := PatchProgram(programs[id], patch, now);
      if !ProgramSlugFree(programs - {id}, program.slug) {
        return Failure(DuplicateKey);
      }
      assert forall k :: k in programs && k != id ==> k in programs - {id};
      programs := programs[id := program];
      revalidated := revalidated + ["/programs"];
      r := Success(Some(program));
    }

    /** The delete of one program row, with the rows that cascade from it. */
    method RemoveProgram(id: int)
      requires Valid()
      modifies this
      ensures Valid()
      ensures programs == old(programs) - {id}
      ensures leads == LeadsWithoutProgram(old(leads), id)
      ensures projects == old(projects) - ProjectsOf(old(projects), id)
      ensures members == MembersWithoutProjects(old(members), ProjectsOf(old(projects), id))
      ensures history == HistoryWithoutProgram(old(history), id)
      ensures revalidated == old(revalidated)
    {
      DeleteProgramCascadeOk(programs, nextProgramId, leads, projects, nextProjectId, members, history, nextHistoryId, id);
      var gone := ProjectsOf(projects, id);
      members := MembersWithoutProjects(members, gone);
      projects := projects - gone;
      leads := LeadsWithoutProgram(leads, id);
      history := HistoryWithoutProgram(history, id);
      programs := programs - {id};
    }

    /**
     * deleteProgram: an admin deletes the program; its leads, projects (with
     * their members) and status history go with it.  A missing id deletes nothing
     * and still succeeds.
     */
    method DeleteProgram(caller: Option<User>, id: int) returns (r: ServerResponse<()>)
      requires Valid()
      modifies this
      ensures Valid()
      ensures r.Success? <==> AdminGate(caller)
      ensures r.Failure? ==> r == Failure(Unauthorized)
      ensures r.Failure? ==>
        Unchanged(old(programs), old(leads), old(projects), old(members), old(history), old(revalidated))
      ensures r.Success? ==>
        && r == Success(()) && id !in programs && programs == old(programs) - {id}
        && leads == LeadsWithoutProgram(old(leads), id)
        && projects == old(projects) - ProjectsOf(old(projects), id)
        && members == MembersWithoutProjects(old(members), ProjectsOf(old(projects), id))
        && history == HistoryWithoutProgram(old(history), id)
        && revalidated == old(revalidated) + ["/programs"]
    {
      if !AdminGate(caller) {
        return Failure(Unauthorized);
      }
      RemoveProgram(id);
      revalidated := revalidated + ["/programs"];
      r := Success(());
    }

    /** createProject: any signed-in caller inserts a project with a free slug and an existing program, if any. */
    method CreateProject(caller: Option<User>, input: NewProject, now: nat) returns (r: ServerResponse<Project>)
      requires Valid()
      modifies this
      ensures Valid()
      ensures caller.None? ==> r == Failure(Unauthorized)
      ensures r.Success? <==>
        caller.Some? && ProjectSlugFree(old(projects), input.slug) && ProgramRefOk(old(programs), input.programId)
      ensures r.Failure? ==> Unchanged(old(programs), old(leads), old(projects), old(members), old(history), old(revalidated))
      ensures r.Success? ==>
        && r.data == ProjectRow(r.data.id, input, now) && r.data.id !in old(projects)
        && projects == old(projects)[r.data.id := r.data]
        && revalidated == old(revalidated) + ["/projects"]
      ensures programs == old(programs) && leads == old(leads) && members == old(members) && history == old(history)
    {
      if caller.None? {
        return Failure(Unauthorized);
      }
      if !ProjectSlugFree(projects, input.slug) {
        return Failure(DuplicateKey);
      }
      if !ProgramRefOk(programs, input.programId) {
        return Failure(ForeignKeyViolation);
      }
      var project := ProjectRow(nextProjectId, input, now);
      projects := projects[project.id := project];
      nextProjectId := nextProjectId + 1;
      revalidated := revalidated + ["/projects"];
      r := Success(project);
    }

    /** getProjects: the projects of one program, or all of them for a falsy id, newest first. */
    method GetProjects(programId: Option<int>) returns (r: ServerResponse<seq<Project>>)
      requires Valid()
      ensures r.Success? && Listing(r.data, projects, ProjectFilter(programId), ProjectCreatedAt)
    {
      ProjectsInjective(projects, nextProjectId, programs);
      var rows := SelectDesc(projects, ProjectFilter(programId), ProjectCreatedAt);
      r := Success(rows);
    }

    /** updateProject: any signed-in caller patches the row; a missing row is a success without data. */
    method UpdateProject(caller: Option<User>, id: int, patch: ProjectPatch, now: nat)
      returns (r: ServerResponse<Option<Project>>)
      requires Valid()
      modifies this
      ensures Valid()
      ensures caller.None? ==> r == Failure(Unauthorized)
      ensures r.Failure? ==> Unchanged(old(programs), old(leads), old(projects), old(members), old(history), old(revalidated))
      ensures caller.Some? && id !in old(projects) ==>
        r == Success(None) && projects == old(projects) && revalidated == old(revalidated) + ["/projects"]
      ensures caller.Some? && id in old(projects) ==>
        (r.Success? <==>
          && ProjectSlugFree(old(projects) - {id}, PatchProject(old(projects)[id], patch, now).slug)
          && ProgramRefOk(old(programs), PatchProject(old(projects)[id], patch, now).programId))
      ensures r.Success? && id in old(projects) ==>
        && r.data == Some(PatchProject(old(projects)[id], patch, now))
        && projects == old(projects)[id := r.data.value]
        && revalidated == old(revalidated) + ["/projects"]
      ensures programs == old(programs) && leads == old(leads) && members == old(members) && history == old(history)
    {
      if caller.None? {
        return Failure(Unauthorized);
      }
      if id !in projects {
        revalidated := revalidated + ["/projects"];
        return Success(None);
      }
      var project := PatchProject(projects[id], patch, now);
      if !ProjectSlugFree(projects - {id}, project.slug) {
        return Failure(DuplicateKey);
      }
      if !ProgramRefOk(programs, project.programId) {
        return Failure(ForeignKeyViolation);
      }
      assert forall k :: k in projects && k != id ==> k in projects - {id};
      projects := projects[id := project];
      revalidated := revalidated + ["/projects"];
      r := Success(Some(project));
    }

    /** deleteProject: any signed-in caller deletes the project and its memberships. */
    method DeleteProject(caller: Option<User>, id: int) returns (r: ServerResponse<()>)
      requires Valid()
      modifies this
      ensures Valid()
      ensures r.Success? <==> caller.Some?
      ensures r.Failure? ==> r == Failure(Unauthorized)
      ensures r.Failure? ==>
        Unchanged(old(programs), old(leads), old(projects), old(members), old(history), old(revalidated))
      ensures r.Success? ==>
        && projects == old(projects) - {id}
        && members == MembersWithoutProjects(old(members), {id})
        && revalidated == old(revalidated) + ["/projects"]
      ensures programs == old(programs) && leads == old(leads) && history == old(history)
    {
      if caller.None? {
        return Failure(Unauthorized);
      }
      DeleteProjectCascadeOk(projects, nextProjectId, programs, members, id);
      members := MembersWithoutProjects(members, {id});
      projects := projects - {id};
      revalidated := revalidated + ["/projects"];
      r := Success(());
    }

    /** addProgramLead: only a role of exactly "admin" adds the (program, user) lead. */
    method AddProgramLead(caller: Option<User>, programId: int, userId: string, now: nat)
      returns (r: ServerResponse<()>)
      requires Valid()
      modifies this
      ensures Valid()
      ensures !ExactAdminGate(caller) ==> r == Failure(Unauthorized)
      ensures r.Success? <==> ExactAdminGate(caller) && programId in old(programs) && (programId, userId) !in old(leads)
      ensures r.Failure? ==> Unchanged(old(programs), old(leads), old(projects), old(members), old(history), old(revalidated))
      ensures r.Success? ==>
        && leads == old(leads)[(programId, userId) := Lead(programId, userId, now)]
        && revalidated == old(revalidated) + ["/programs/" + IntToString(programId)]
      ensures programs == old(programs) && projects == old(projects) && members == old(members) && history == old(history)
    {
      if !ExactAdminGate(caller) {
        return Failure(Unauthorized);
      }
      if programId !in programs {
        return Failure(ForeignKeyViolation);
      }
      if (programId, userId) in leads {
        return Failure(DuplicateKey);
      }
      leads := leads[(programId, userId) := Lead(programId, userId, now)];
      revalidated := revalidated + ["/programs/" + IntToString(programId)];
      r := Success(());
    }

    /** removeProgramLead: only a role of exactly "admin" deletes the one (program, user) lead. */
    method RemoveProgramLead(caller: Option<User>, programId: int, userId: string) returns (r: ServerResponse<()>)
      requires Valid()
      modifies this
      ensures Valid()
      ensures r.Success? <==> ExactAdminGate(caller)
      ensures r.Failure? ==> r == Failure(Unauthorized)
      ensures r.Failure? ==>
        Unchanged(old(programs), old(leads), old(projects), old(members), old(history), old(revalidated))
      ensures r.Success? ==>
        && leads == old(leads) - {(programId, userId)}
        && revalidated == old(revalidated) + ["/programs/" + IntToString(programId)]
      ensures programs == old(programs) && projects == old(projects) && members == old(members) && history == old(history)
    {
      if !ExactAdminGate(caller) {
        return Failure(Unauthorized);
      }
      leads := leads - {(programId, userId)};
      revalidated := revalidated + ["/programs/" + IntToString(programId)];
      r := Success(());
    }

    /** joinProject: the caller becomes a member, with the given role or "contributor". */
    method JoinProject(caller: Option<User>, projectId: int, role: Option<string>, now: nat)
      returns (r: ServerResponse<()>)
      requires Valid()
      modifies this
      ensures Valid()
      ensures caller.None? ==> r == Failure(Unauthorized)
      ensures r.Success? <==> caller.Some? && projectId in old(projects) && (projectId, caller.value.id) !in old(members)
      ensures caller.Some? && (projectId, caller.value.id) in old(members) ==> r.Failure?
      ensures r.Failure? ==> Unchanged(old(programs), old(leads), old(projects), old(members), old(history), old(revalidated))
      ensures r.Success? ==>
        && members == old(members)[(projectId, caller.value.id) := Member(projectId, caller.value.id, role.GetOr(DefaultMemberRole), now)]
        && revalidated == old(revalidated) + ["/projects/" + IntToString(projectId)]
      ensures programs == old(programs) && leads == old(leads) && projects == old(projects) && history == old(history)
    {
      if caller.None? {
        return Failure(Unauthorized);
      }
      var key := (projectId, caller.value.id);
      if projectId !in projects {
        return Failure(ForeignKeyViolation);
      }
      if key in members {
        return Failure(DuplicateKey);
      }
      members := members[key := Member(projectId, caller.value.id, role.GetOr(DefaultMemberRole), now)];
      revalidated := revalidated + ["/projects/" + IntToString(projectId)];
      r := Success(());
    }

    /** leaveProject: the caller's own membership of the project, and only it, is deleted. */
    method LeaveProject(caller: Option<User>, projectId: int) returns (r: ServerResponse<()>)
      requires Valid()
      modifies this
      ensures Valid()
      ensures r.Success? <==> caller.Some?
      ensures r.Failure? ==> r == Failure(Unauthorized)
      ensures r.Failure? ==>
        Unchanged(old(programs), old(leads), old(projects), old(members), old(history), old(revalidated))
      ensures r.Success? ==>
        && members == old(members) - {(projectId, caller.value.id)}
        && revalidated == old(revalidated) + ["/projects/" + IntToString(projectId)]
      ensures programs == old(programs) && leads == old(leads) && projects == old(projects) && history == old(history)
    {
      if caller.None? {
        return Failure(Unauthorized);
      }
      members := members - {(projectId, caller.value.id)};
      revalidated := revalidated + ["/projects/" + IntToString(projectId)];
      r := Success(());
    }
  }

  lemma ProgramsInjective(programs: map<int, Program>, next: int)
    requires ProgramsOk(programs, next)
    ensures Injective(programs)
  {
  }

  lemma ProjectsInjective(projects: map<int, Project>, next: int, programs: map<int, Program>)
    requires ProjectsOk(projects, next, programs)
    ensures Injective(projects)
  {
  }
}
