/** Projects (src/services/projectService.ts): students post projects, edit
    and delete their own; anyone lists them through filters. */
module ProjectService {
  import opened Wrappers
  import opened Models
  import opened Ordering
  import opened SqlLike
  import opened Database
  import ProposalService

  /** The body of a create-project request. */
  datatype ProjectInput = ProjectInput(
    title: string,
    description: string,
    technology: seq<string>,
    budget: real,
    deadline: string)

  /** The body of an update request; absent fields are `None`. */
  datatype ProjectPatch = ProjectPatch(
    title: Option<string>,
    description: Option<string>,
    technology: Option<seq<string>>,
    budget: Option<real>,
    deadline: Option<string>,
    status: Option<ProjectStatus>,
    progressPercentage: Option<int>)

  /** The listing filters; the same ones drive the developer's browse page. */
  datatype ProjectFilter = ProjectFilter(
    status: Option<string>,
    technology: Option<string>,
    minBudget: Option<real>,
    maxBudget: Option<real>,
    search: Option<string>,
    limit: Option<nat>,
    offset: Option<nat>)

  /** A project with its student, its accepted proposal and that proposal's
      developer, as the left joins of getProjectById return it. */
  datatype ProjectDetails = ProjectDetails(
    id: Id,
    project: Project,
    student: Option<User>,
    acceptedProposal: Option<Proposal>,
    developer: Option<User>,
    proposalsCount: nat)

  /** The proposals of one project. */
  function BidsOn(ps: map<Id, Proposal>, projectId: Id): (r: set<Id>)
    ensures forall k :: k in r <==> k in ps && ps[k].projectId == projectId
  {
    set k | k in ps && ps[k].projectId == projectId
  }

  /** `SELECT COUNT(*) FROM proposals WHERE project_id = $1`. */
  function ProposalsCount(ps: map<Id, Proposal>, projectId: Id): nat {
    |BidsOn(ps, projectId)|
  }

  function CreateProjectOutcome(s: Store, studentId: Id, input: ProjectInput, now: Time)
    : (o: Outcome<(Id, Project)>)
    requires s.Valid()
    ensures o.after.Valid() && o.result.Ok?
    ensures var (id, p) := o.result.value;
      && id !in s.projects && o.after == s.(projects := s.projects[id := p], nextId := id + 1)
      && p.status == Open && p.acceptedProposalId.None? && p.progressPercentage == 0
      && p.studentId == studentId && p.title == input.title && p.budget == input.budget
      && p == Project(studentId, input.title, input.description, input.technology, input.budget,
                      input.deadline, Open, None, 0, now)
  {
    var id := Fresh(s);
    var p := Project(studentId, input.title, input.description, input.technology, input.budget,
                     input.deadline, Open, None, 0, now);
    Outcome(Ok((id, p)), s.(projects := s.projects[id := p], nextId := id + 1))
  }

  /** getProjectById. The joined row's `student_id` is the joined user's id,
      so it is NULL when the student's account no longer exists. */
  function GetProjectById(s: Store, projectId: Id): (r: Result<ProjectDetails>)
    ensures r.Err? <==> projectId !in s.projects
    ensures r.Err? ==> r.error == AppError("Project not found", 404)
    ensures r.Ok? ==> r.value.project == s.projects[projectId]
                      && r.value.proposalsCount == |BidsOn(s.proposals, projectId)|
    ensures r.Ok? ==> (r.value.student.Some? <==> s.projects[projectId].studentId in s.users)
  {
    if projectId !in s.projects then Err(AppError("Project not found", 404))
    else
      var p := s.projects[projectId];
      var bid := if p.acceptedProposalId.Some? && p.acceptedProposalId.value in s.proposals
                 then Some(s.proposals[p.acceptedProposalId.value]) else None;
      Ok(ProjectDetails(projectId, p,
         if p.studentId in s.users then Some(s.users[p.studentId]) else None,
         bid,
         if bid.Some? && bid.value.developerId in s.users then Some(s.users[bid.value.developerId]) else None,
         ProposalsCount(s.proposals, projectId)))
  }

  /** The `student_id` the ownership checks read from getProjectById's row. */
  function JoinedStudentId(d: ProjectDetails): Option<Id> {
    if d.student.Some? then Some(d.project.studentId) else None
  }

  /** A new proposal on a project raises its proposals count by one. */
  lemma NewBidCounts(ps: map<Id, Proposal>, id: Id, p: Proposal)
    requires id !in ps
    ensures ProposalsCount(ps[id := p], p.projectId) == ProposalsCount(ps, p.projectId) + 1
  {
    assert BidsOn(ps[id := p], p.projectId) == BidsOn(ps, p.projectId) + {id};
  }

  /** One filter of getProjects applies only when its value is truthy. */
  predicate Matches(f: ProjectFilter, p: Project) {
    && (PresentText(f.status) ==> ProjectStatusName(p.status) == f.status.value)
    && (PresentText(f.technology) ==> f.technology.value in p.technology)
    && (f.minBudget.Some? && f.minBudget.value != 0.0 ==> p.budget >= f.minBudget.value)
    && (f.maxBudget.Some? && f.maxBudget.value != 0.0 ==> p.budget <= f.maxBudget.value)
    && (PresentText(f.search) ==> SearchMatches(p.title, f.search.value)
                                  || SearchMatches(p.description, f.search.value))
  }

  function CreatedAt(p: Project): int { p.createdAt }

  /** `LIMIT`/`OFFSET` are added only for truthy (non-zero) values. */
  function PageLimit(f: ProjectFilter): Option<nat> {
    if f.limit.Some? && f.limit.value != 0 then f.limit else None
  }

  function PageOffset(f: ProjectFilter): nat {
    if f.offset.Some? then f.offset.value else 0
  }

  function Selected(m: map<Id, Project>, f: ProjectFilter): (r: map<Id, Project>)
    ensures forall k :: k in r <==> k in m && Matches(f, m[k])
    ensures forall k :: k in r ==> r[k] == m[k]
  {
    map k | k in m && Matches(f, m[k]) :: m[k]
  }

  /** getProjects (and the developer's browseProjects): the matching
      projects, newest first, then OFFSET and LIMIT. */
  function ListProjects(m: map<Id, Project>, f: ProjectFilter): (r: seq<Id>)
    ensures forall i :: 0 <= i < |r| ==> r[i] in m && Matches(f, m[r[i]])
    ensures NewestOrder(r, m, CreatedAt)
    ensures PageLimit(f).Some? ==> |r| <= PageLimit(f).value
    ensures PageLimit(f).Some? ==> |r| == WindowLength(|Selected(m, f)|, PageOffset(f), PageLimit(f).value)
    ensures PageLimit(f).None? ==>
              |r| == if |Selected(m, f)| < PageOffset(f) then 0 else |Selected(m, f)| - PageOffset(f)
    ensures RunOf(r, NewestFirst(Selected(m, f), CreatedAt), PageOffset(f))
    ensures forall k :: k in m && Matches(f, m[k]) && k !in r ==>
              (PageOffset(f) > 0 && NoOlderThan(k, r, m, CreatedAt)) || NoNewerThan(k, r, m, CreatedAt)
  {
    var sel := Selected(m, f);
    var r := NewestPage(sel, CreatedAt, PageOffset(f), PageLimit(f));
    NewestPageWider(sel, m, CreatedAt, PageOffset(f), PageLimit(f));
    r
  }

  /** Without LIMIT and OFFSET the listing holds every matching project and
      nothing else, each once. */
  lemma ListProjectsComplete(m: map<Id, Project>, f: ProjectFilter)
    requires PageLimit(f).None? && PageOffset(f) == 0
    ensures var r := ListProjects(m, f);
      && (forall k :: k in r <==> k in m && Matches(f, m[k]))
      && |r| == |Selected(m, f)|
  {
  }

  /** An empty filter keeps every project. */
  lemma EmptyFilterKeepsAll(p: Project)
    ensures Matches(ProjectFilter(None, None, None, None, None, None, None), p)
    ensures Matches(ProjectFilter(Some(""), Some(""), Some(0.0), Some(0.0), Some(""), Some(0), Some(0)), p)
  {
  }

  /** A wildcard-free search keeps exactly the projects whose title or
      description contains it, letters compared without case. */
  lemma SearchFilterIsSubstring(f: ProjectFilter, p: Project)
    requires PresentText(f.search) && NoWildcards(f.search.value)
    requires f == ProjectFilter(None, None, None, None, f.search, None, None)
    ensures Matches(f, p) <==> ContainsIgnoringCase(p.title, f.search.value)
                               || ContainsIgnoringCase(p.description, f.search.value)
  {
    SearchIsSubstring(p.title, f.search.value);
    SearchIsSubstring(p.description, f.search.value);
  }

  /** The fields of an update that qualify: truthy ones, and the progress
      whenever it is given, even 0. A technology list is truthy even when
      empty. */
  function PatchedFieldCount(d: ProjectPatch): (n: nat)
    ensures n == 0 <==> !PresentText(d.title) && !PresentText(d.description) && d.technology.None?
                        && !(d.budget.Some? && d.budget.value != 0.0) && !PresentText(d.deadline)
                        && d.status.None? && d.progressPercentage.None?
  {
    (if PresentText(d.title) then 1 else 0)
    + (if PresentText(d.description) then 1 else 0)
    + (if d.technology.Some? then 1 else 0)
    + (if d.budget.Some? && d.budget.value != 0.0 then 1 else 0)
    + (if PresentText(d.deadline) then 1 else 0)
    + (if d.status.Some? then 1 else 0)
    + (if d.progressPercentage.Some? then 1 else 0)
  }

  /** The row after `UPDATE projects SET <qualifying fields>`. */
  function Patched(p: Project, d: ProjectPatch): (q: Project)
    ensures q.studentId == p.studentId && q.acceptedProposalId == p.acceptedProposalId
    ensures q.createdAt == p.createdAt
    ensures q.title == (if PresentText(d.title) then d.title.value else p.title)
    ensures q.description == (if PresentText(d.description) then d.description.value else p.description)
    ensures q.technology == (if d.technology.Some? then d.technology.value else p.technology)
    ensures q.budget == (if d.budget.Some? && d.budget.value != 0.0 then d.budget.value else p.budget)
    ensures q.deadline == (if PresentText(d.deadline) then d.deadline.value else p.deadline)
    ensures q.status == (if d.status.Some? then d.status.value else p.status)
    ensures q.progressPercentage == (if d.progressPercentage.Some? then d.progressPercentage.value else p.progressPercentage)
  {
    p.(title := if PresentText(d.title) then d.title.value else p.title,
       description := if PresentText(d.description) then d.description.value else p.description,
       technology := if d.technology.Some? then d.technology.value else p.technology,
       budget := if d.budget.Some? && d.budget.value != 0.0 then d.budget.value else p.budget,
       deadline := if PresentText(d.deadline) then d.deadline.value else p.deadline,
       status := if d.status.Some? then d.status.value else p.status,
       progressPercentage := if d.progressPercentage.Some? then d.progressPercentage.value else p.progressPercentage)
  }

  /** A patch with no qualifying field would leave the row as it is. */
  lemma EmptyPatchChangesNothing(p: Project, d: ProjectPatch)
    requires PatchedFieldCount(d) == 0
    ensures Patched(p, d) == p
  {
  }

  /** Applying the same patch twice is applying it once. */
  lemma PatchIdempotent(p: Project, d: ProjectPatch)
    ensures Patched(Patched(p, d), d) == Patched(p, d)
  {
  }

  function UpdateProjectOutcome(s: Store, projectId: Id, studentId: Id, d: ProjectPatch)
    : (o: Outcome<Project>)
    requires s.Valid()
    ensures o.after.Valid()
    ensures o.result.Err? ==> o.after == s
    ensures o.result.Ok? ==> (projectId in s.projects
                              && o.result.value == Patched(s.projects[projectId], d)
                              && o.after == s.(projects := s.projects[projectId := o.result.value]))
  {
    var r := GetProjectById(s, projectId);
    if r.Err? then Outcome(Err(r.error), s)
    else if JoinedStudentId(r.value) != Some(studentId) then Fail(s, "Unauthorized to update this project", 403)
    else if PatchedFieldCount(d) == 0 then Fail(s, "No fields to update", 400)
    else
      var q := Patched(s.projects[projectId], d);
      Outcome(Ok(q), s.(projects := s.projects[projectId := q]))
  }

  /** updateProject: 404 for a missing project, 403 for anyone but its
      student, 400 when no field qualifies. */
  lemma UpdateProjectGuards(s: Store, projectId: Id, studentId: Id, d: ProjectPatch)
    requires s.Valid()
    ensures var o := UpdateProjectOutcome(s, projectId, studentId, d);
      && (projectId !in s.projects ==> o.result == Err(AppError("Project not found", 404)))
      && (projectId in s.projects && s.projects[projectId].studentId != studentId ==>
            o.result == Err(AppError("Unauthorized to update this project", 403)))
      && (projectId in s.projects && s.projects[projectId].studentId == studentId && studentId in s.users
          && PatchedFieldCount(d) == 0 ==>
            o.result == Err(AppError("No fields to update", 400)))
      && (o.result.Ok? <==> projectId in s.projects && s.projects[projectId].studentId == studentId
                             && studentId in s.users && PatchedFieldCount(d) > 0)
  {
  }

  function DeleteProjectOutcome(s: Store, projectId: Id, studentId: Id): (o: Outcome<string>)
    requires s.Valid()
    ensures o.after.Valid()
  {
    var r := GetProjectById(s, projectId);
    if r.Err? then Outcome(Err(r.error), s)
    else if JoinedStudentId(r.value) != Some(studentId) then Fail(s, "Unauthorized to delete this project", 403)
    else Outcome(Ok("Project deleted successfully"), s.(projects := s.projects - {projectId}))
  }

  /** deleteProject removes exactly the owner's project, whatever its status. */
  lemma DeleteProjectEffect(s: Store, projectId: Id, studentId: Id)
    requires s.Valid()
    ensures var o := DeleteProjectOutcome(s, projectId, studentId);
      && (o.result.Ok? <==> projectId in s.projects && s.projects[projectId].studentId == studentId
                             && studentId in s.users)
      && (o.result.Ok? ==> o.after == s.(projects := s.projects - {projectId})
                           && o.after.projects.Keys == s.projects.Keys - {projectId})
      && (o.result.Err? ==> o.after == s)
  {
    var r := GetProjectById(s, projectId);
    if r.Ok? {
      assert JoinedStudentId(r.value) == Some(studentId) <==>
        s.projects[projectId].studentId == studentId && studentId in s.users;
      assert (s.projects - {projectId}).Keys == s.projects.Keys - {projectId};
    }
  }

  /** getUserProjects as written: a student's own projects, and for anyone
      else the projects whose `accepted_proposal_id` equals the user's id. */
  function UserProjects(s: Store, userId: Id, role: UserRole): (r: seq<Id>)
    ensures forall k :: k in r <==> (k in s.projects &&
              (if role == Student then s.projects[k].studentId == userId
               else s.projects[k].acceptedProposalId == Some(userId)))
    ensures NewestOrder(r, s.projects, CreatedAt)
    ensures forall i, j :: 0 <= i < j < |r| ==> r[i] != r[j]
  {
    var sel := map k | k in s.projects &&
                 (if role == Student then s.projects[k].studentId == userId
                  else s.projects[k].acceptedProposalId == Some(userId)) :: s.projects[k];
    var r := NewestFirst(sel, CreatedAt);
    NewestFirstOrder(sel, CreatedAt);
    NewestOrderWider(r, sel, s.projects, CreatedAt);
    NewestFirstDistinct(sel, CreatedAt);
    r
  }

  /** What getUserProjects evidently means for a developer: the projects
      whose accepted proposal is theirs. */
  function AssignedProjects(s: Store, userId: Id, role: UserRole): (r: seq<Id>)
    ensures forall k :: k in r <==> k in s.projects && IsAssigned(s, k, userId, role)
    ensures NewestOrder(r, s.projects, CreatedAt)
    ensures forall i, j :: 0 <= i < j < |r| ==> r[i] != r[j]
  {
    var sel := map k | k in s.projects && IsAssigned(s, k, userId, role) :: s.projects[k];
    var r := NewestFirst(sel, CreatedAt);
    NewestFirstOrder(sel, CreatedAt);
    NewestOrderWider(r, sel, s.projects, CreatedAt);
    NewestFirstDistinct(sel, CreatedAt);
    r
  }

  predicate IsAssigned(s: Store, k: Id, userId: Id, role: UserRole)
    requires k in s.projects
  {
    var p := s.projects[k];
    if role == Student then p.studentId == userId
    else p.acceptedProposalId.Some? && p.acceptedProposalId.value in s.proposals
         && s.proposals[p.acceptedProposalId.value].developerId == userId
  }

  /** For a developer, AssignedProjects lists exactly the projects the
      developer's accepted proposals belong to. */
  lemma AssignedProjectsOfAccept(s: Store, proposalId: Id, studentId: Id, now: Time)
    requires s.Valid()
    requires ProposalService.AcceptProposalOutcome(s, proposalId, studentId, now).result.Ok?
    ensures var t := ProposalService.AcceptProposalOutcome(s, proposalId, studentId, now).after;
      s.proposals[proposalId].projectId in AssignedProjects(t, s.proposals[proposalId].developerId, Developer)
  {
  }

  /** The developer branch of getUserProjects compares a proposal id with a
      user id: a developer whose proposal was accepted on a project, and
      whose own id no project holds as its accepted proposal id, is shown no
      project, while the intended listing holds that project. */
  lemma DeveloperSeesNoProject(s: Store, developerId: Id, projectId: Id, proposalId: Id)
    requires projectId in s.projects && s.projects[projectId].acceptedProposalId == Some(proposalId)
    requires proposalId in s.proposals && s.proposals[proposalId].developerId == developerId
    requires forall k :: k in s.projects ==> s.projects[k].acceptedProposalId != Some(developerId)
    ensures UserProjects(s, developerId, Developer) == []
    ensures projectId in AssignedProjects(s, developerId, Developer)
  {
    var r := UserProjects(s, developerId, Developer);
    assert forall k :: k !in r;
    assert IsAssigned(s, projectId, developerId, Developer);
  }

  /** The SET list updateProject assembles field by field, applied to the
      row, with the number of fields it names. */
  method PatchRow(p: Project, d: ProjectPatch) returns (q: Project, updates: nat)
    ensures q == Patched(p, d) && updates == PatchedFieldCount(d)
  {
    q, updates := p, 0;
    if PresentText(d.title) {
      q, updates := q.(title := d.title.value), updates + 1;
    }
    if PresentText(d.description) {
      q, updates := q.(description := d.description.value), updates + 1;
    }
    if d.technology.Some? {
      q, updates := q.(technology := d.technology.value), updates + 1;
    }
    if d.budget.Some? && d.budget.value != 0.0 {
      q, updates := q.(budget := d.budget.value), updates + 1;
    }
    if PresentText(d.deadline) {
      q, updates := q.(deadline := d.deadline.value), updates + 1;
    }
    if d.status.Some? {
      q, updates := q.(status := d.status.value), updates + 1;
    }
    if d.progressPercentage.Some? {
      q, updates := q.(progressPercentage := d.progressPercentage.value), updates + 1;
    }
  }

  class ProjectServiceImpl {
    const db: Db

    constructor (db: Db)
      ensures this.db == db
    {
      this.db := db;
    }

    method CreateProject(studentId: Id, input: ProjectInput, now: Time) returns (r: Result<(Id, Project)>)
      requires db.Valid()
      modifies db
      ensures var o := CreateProjectOutcome(old(db.State()), studentId, input, now);
        r == o.result && db.State() == o.after
      ensures db.Valid()
    {
      var id := db.NewId();
      var p := Project(studentId, input.title, input.description, input.technology, input.budget,
                       input.deadline, Open, None, 0, now);
      db.projects := db.projects[id := p];
      r := Ok((id, p));
    }

    method GetProjects(f: ProjectFilter) returns (r: seq<Id>)
      ensures r == ListProjects(db.projects, f)
    {
      r := ListProjects(db.projects, f);
    }

    /** Builds the SET list field by field as the source pushes to `updates`. */
    method UpdateProject(projectId: Id, studentId: Id, d: ProjectPatch) returns (r: Result<Project>)
      requires db.Valid()
      modifies db
      ensures var o := UpdateProjectOutcome(old(db.State()), projectId, studentId, d);
        r == o.result && db.State() == o.after
      ensures db.Valid()
    {
      var details := GetProjectById(db.State(), projectId);
      if details.Err? {
        return Err(details.error);
      }
      if JoinedStudentId(details.value) != Some(studentId) {
        return Err(AppError("Unauthorized to update this project", 403));
      }
      var q, updates := PatchRow(db.projects[projectId], d);
      if updates == 0 {
        return Err(AppError("No fields to update", 400));
      }
      db.projects := db.projects[projectId := q];
      r := Ok(q);
    }

    method DeleteProject(projectId: Id, studentId: Id) returns (r: Result<string>)
      requires db.Valid()
      modifies db
      ensures var o := DeleteProjectOutcome(old(db.State()), projectId, studentId);
        r == o.result && db.State() == o.after
      ensures db.Valid()
    {
      var details := GetProjectById(db.State(), projectId);
      if details.Err? {
        return Err(details.error);
      }
      if JoinedStudentId(details.value) != Some(studentId) {
        return Err(AppError("Unauthorized to delete this project", 403));
      }
      db.projects := db.projects - {projectId};
      r := Ok("Project deleted successfully");
    }

    method GetUserProjects(userId: Id, role: UserRole) returns (r: seq<Id>)
      ensures r == UserProjects(db.State(), userId, role)
    {
      r := UserProjects(db.State(), userId, role);
    }
  }
}
