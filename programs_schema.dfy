/**
 * The community program tables (core/db/schemas/community/programs.ts):
 * programs, their leads, projects, project members and the program status
 * history, with their keys, uniqueness, defaults and cascades.
 */
module ProgramsSchema {
  import opened Wrappers

  /**
   * `program_status`; `project_status` declares the same five labels in the
   * same order, so one datatype serves both columns.
   */
  datatype ProgramStatus = Active | Completed | OnHold | Cancelled | Draft

  function ProgramStatusName(s: ProgramStatus): string {
    match s
    case Active => "active"
    case Completed => "completed"
    case OnHold => "on_hold"
    case Cancelled => "cancelled"
    case Draft => "draft"
  }

  /** The enum's labels, in declaration order. */
  const ProgramStatusLabels: seq<string> := ["active", "completed", "on_hold", "cancelled", "draft"]

  /** The labels are exactly the names of the five statuses, one each. */
  lemma ProgramStatusLabelsExact()
    ensures forall s :: ProgramStatusName(s) in ProgramStatusLabels
    ensures forall l :: l in ProgramStatusLabels ==> exists s :: ProgramStatusName(s) == l
    ensures forall s, t :: ProgramStatusName(s) == ProgramStatusName(t) ==> s == t
  {
    assert ProgramStatusName(Active) == ProgramStatusLabels[0];
    assert ProgramStatusName(Completed) == ProgramStatusLabels[1];
    assert ProgramStatusName(OnHold) == ProgramStatusLabels[2];
    assert ProgramStatusName(Cancelled) == ProgramStatusLabels[3];
    assert ProgramStatusName(Draft) == ProgramStatusLabels[4];
  }

  datatype Program = Program(
    id: int, title: string, slug: string, description: string, status: ProgramStatus,
    startDate: Option<nat>, endDate: Option<nat>, createdAt: nat, updatedAt: nat)

  /** A row of community_program_leads, keyed by (programId, userId). */
  datatype Lead = Lead(programId: int, userId: string, assignedAt: nat)

  datatype Project = Project(
    id: int, programId: Option<int>, title: string, slug: string, description: string,
    repositoryUrl: Option<string>, status: ProgramStatus, createdAt: nat, updatedAt: nat)

  /** A row of community_project_members, keyed by (projectId, userId). */
  datatype Member = Member(projectId: int, userId: string, role: string, joinedAt: nat)

  datatype StatusChange = StatusChange(
    id: int, programId: int, status: ProgramStatus, changedBy: Option<string>,
    reason: Option<string>, createdAt: nat)

  /** The insertable columns of a program (`NewCommunityProgram`). */
  datatype NewProgram = NewProgram(
    title: string, slug: string, description: string, status: Option<ProgramStatus>,
    startDate: Option<nat>, endDate: Option<nat>)

  /** The insertable columns of a project. */
  datatype NewProject = NewProject(
    programId: Option<int>, title: string, slug: string, description: string,
    repositoryUrl: Option<string>, status: Option<ProgramStatus>)

  /** The row an insert of `input` produces; the status defaults to draft. */
  function ProgramRow(id: int, input: NewProgram, now: nat): Program {
    Program(id, input.title, input.slug, input.description, input.status.GetOr(Draft),
            input.startDate, input.endDate, now, now)
  }

  /** The row an insert of `input` produces; the status defaults to draft. */
  function ProjectRow(id: int, input: NewProject, now: nat): Project {
    Project(id, input.programId, input.title, input.slug, input.description,
            input.repositoryUrl, input.status.GetOr(Draft), now, now)
  }

  /** The default of community_project_members.role. */
  const DefaultMemberRole: string := "contributor"

  /** An insert that names no status gets draft; one that names a status keeps it. */
  lemma RowStatusDefaults(id: int, p: NewProgram, q: NewProject, now: nat)
    ensures ProgramRow(id, p, now).status == if p.status.None? then Draft else p.status.value
    ensures ProjectRow(id, q, now).status == if q.status.None? then Draft else q.status.value
    ensures ProgramRow(id, p, now).id == id && ProgramRow(id, p, now).slug == p.slug
    ensures ProjectRow(id, q, now).id == id && ProjectRow(id, q, now).programId == q.programId
  {
  }

  // Constraints of the tables.  `next` is the serial sequence's next value.

  ghost predicate ProgramsOk(programs: map<int, Program>, next: int) {
    && (forall k :: k in programs ==> programs[k].id == k && k < next)
    && (forall a, b :: a in programs && b in programs && programs[a].slug == programs[b].slug ==> a == b)
  }

  ghost predicate LeadsOk(leads: map<(int, string), Lead>, programs: map<int, Program>) {
    forall k :: k in leads ==> k == (leads[k].programId, leads[k].userId) && leads[k].programId in programs
  }

  ghost predicate ProjectsOk(projects: map<int, Project>, next: int, programs: map<int, Program>) {
    && (forall k :: k in projects ==> projects[k].id == k && k < next)
    && (forall a, b :: a in projects && b in projects && projects[a].slug == projects[b].slug ==> a == b)
    && (forall k :: k in projects && projects[k].programId.Some? ==> projects[k].programId.value in programs)
  }

  ghost predicate MembersOk(members: map<(int, string), Member>, projects: map<int, Project>) {
    forall k :: k in members ==> k == (members[k].projectId, members[k].userId) && members[k].projectId in projects
  }

  ghost predicate HistoryOk(history: map<int, StatusChange>, next: int, programs: map<int, Program>) {
    forall k :: k in history ==> history[k].id == k && k < next && history[k].programId in programs
  }

  // ON DELETE CASCADE from community_programs (leads, projects, status history)
  // and from community_projects (members).

  /** The projects of program `id`. */
  function ProjectsOf(projects: map<int, Project>, id: int): (r: set<int>)
    ensures forall k :: k in r <==> k in projects && projects[k].programId == Some(id)
  {
    set k | k in projects && projects[k].programId == Some(id)
  }

  function LeadsWithoutProgram(leads: map<(int, string), Lead>, id: int): (r: map<(int, string), Lead>)
    ensures forall k :: k in r <==> k in leads && leads[k].programId != id
    ensures forall k :: k in r ==> r[k] == leads[k]
  {
    map k | k in leads && leads[k].programId != id :: leads[k]
  }

  function HistoryWithoutProgram(history: map<int, StatusChange>, id: int): (r: map<int, StatusChange>)
    ensures forall k :: k in r <==> k in history && history[k].programId != id
    ensures forall k :: k in r ==> r[k] == history[k]
  {
    map k | k in history && history[k].programId != id :: history[k]
  }

  function MembersWithoutProjects(members: map<(int, string), Member>, gone: set<int>): (r: map<(int, string), Member>)
    ensures forall k :: k in r <==> k in members && members[k].projectId !in gone
    ensures forall k :: k in r ==> r[k] == members[k]
  {
    map k | k in members && members[k].projectId !in gone :: members[k]
  }

  /** Deleting program `id` and what cascades from it leaves no dangling reference. */
  lemma DeleteProgramCascadeOk(
    programs: map<int, Program>, nextProgram: int, leads: map<(int, string), Lead>,
    projects: map<int, Project>, nextProject: int, members: map<(int, string), Member>,
    history: map<int, StatusChange>, nextHistory: int, id: int)
    requires ProgramsOk(programs, nextProgram) && LeadsOk(leads, programs)
    requires ProjectsOk(projects, nextProject, programs) && MembersOk(members, projects)
    requires HistoryOk(history, nextHistory, programs)
    ensures ProgramsOk(programs - {id}, nextProgram)
    ensures LeadsOk(LeadsWithoutProgram(leads, id), programs - {id})
    ensures ProjectsOk(projects - ProjectsOf(projects, id), nextProject, programs - {id})
    ensures MembersOk(MembersWithoutProjects(members, ProjectsOf(projects, id)), projects - ProjectsOf(projects, id))
    ensures HistoryOk(HistoryWithoutProgram(history, id), nextHistory, programs - {id})
  {
  }

  /** Deleting project `id` and its memberships leaves no dangling reference. */
  lemma DeleteProjectCascadeOk(
    projects: map<int, Project>, nextProject: int, programs: map<int, Program>,
    members: map<(int, string), Member>, id: int)
    requires ProjectsOk(projects, nextProject, programs) && MembersOk(members, projects)
    ensures ProjectsOk(projects - {id}, nextProject, programs)
    ensures MembersOk(MembersWithoutProjects(members, {id}), projects - {id})
  {
  }
}
