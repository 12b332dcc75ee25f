/** Bidding on projects (src/services/proposalService.ts): a developer submits
    one proposal per open project; the project's student accepts one proposal,
    which rejects its siblings and starts the project, or rejects one. */
module ProposalService {
  import opened Wrappers
  import opened Models
  import opened Database

  /** The body of a create-proposal request. */
  datatype ProposalInput = ProposalInput(
    price: real,
    timeline: int,
    technology: Option<seq<string>>,
    message: Option<string>)

  /** A proposal with its developer and project, as the left joins return it. */
  datatype ProposalDetails = ProposalDetails(
    id: Id,
    proposal: Proposal,
    developer: Option<User>,
    project: Option<Project>)

  /** At most one proposal per (project, developer) pair. */
  predicate UniqueBids(ps: map<Id, Proposal>) {
    forall i, j ::
      (i in ps && j in ps && ps[i].projectId == ps[j].projectId && ps[i].developerId == ps[j].developerId)
      ==> i == j
  }

  predicate HasBid(ps: map<Id, Proposal>, projectId: Id, developerId: Id) {
    exists k :: k in ps && ps[k].projectId == projectId && ps[k].developerId == developerId
  }

  /** The row `createProposal` inserts. */
  function NewProposal(projectId: Id, developerId: Id, input: ProposalInput, now: Time): (p: Proposal)
    ensures p.status == ProposalStatus.Pending && p.projectId == projectId && p.developerId == developerId
    ensures p.technology == (if input.technology.Some? then input.technology.value else [])
    ensures p.message.Some? <==> PresentText(input.message)
  {
    Proposal(projectId, developerId, input.price, input.timeline, input.technology.GetOr([]),
             TextOrNull(input.message), ProposalStatus.Pending, now, now)
  }

  function CreateProposalOutcome(s: Store, projectId: Id, developerId: Id, input: ProposalInput, now: Time)
    : (o: Outcome<(Id, Proposal)>)
    requires s.Valid()
    ensures o.after.Valid()
  {
    if projectId !in s.projects then Fail(s, "Project not found", 404)
    else
      var project := s.projects[projectId];
      if project.status != Open then Fail(s, "Project is not accepting proposals", 400)
      else if HasBid(s.proposals, projectId, developerId) then
        Fail(s, "You have already sent a proposal for this project", 400)
      else
        var id := Fresh(s);
        var p := NewProposal(projectId, developerId, input, now);
        var n := NewNotification(project.studentId, "New Proposal Received",
                                 "You received a new proposal for \"" + project.title + "\"",
                                 "proposal", Some(id), now);
        Outcome(Ok((id, p)), s.(proposals := s.proposals[id := p],
                               notifications := s.notifications[id + 1 := n],
                               nextId := id + 2))
  }

  /** The guards of createProposal, in order: a missing project gives 404, a
      project that is not open 400, a second bid by the same developer 400. */
  lemma CreateProposalGuards(s: Store, projectId: Id, developerId: Id, input: ProposalInput, now: Time)
    requires s.Valid()
    ensures var o := CreateProposalOutcome(s, projectId, developerId, input, now);
      && (projectId !in s.projects ==> o.result == Err(AppError("Project not found", 404)))
      && (projectId in s.projects && s.projects[projectId].status != Open ==>
            o.result.Err? && o.result.error.statusCode == 400)
      && (projectId in s.projects && s.projects[projectId].status != Open ==>
            o.result == Err(AppError("Project is not accepting proposals", 400)))
      && (projectId in s.projects && s.projects[projectId].status == Open
          && HasBid(s.proposals, projectId, developerId) ==>
            o.result == Err(AppError("You have already sent a proposal for this project", 400)))
      && (HasBid(s.proposals, projectId, developerId) ==> o.result.Err?)
      && (o.result.Err? ==> o.after == s)
      && (o.result.Ok? <==> projectId in s.projects && s.projects[projectId].status == Open
                             && !HasBid(s.proposals, projectId, developerId))
  {
  }

  /** A successful submission adds exactly one pending proposal and one
      notification to the project's student that points at it. */
  lemma CreateProposalEffect(s: Store, projectId: Id, developerId: Id, input: ProposalInput, now: Time)
    requires s.Valid()
    requires CreateProposalOutcome(s, projectId, developerId, input, now).result.Ok?
    ensures var o := CreateProposalOutcome(s, projectId, developerId, input, now);
      var (id, p) := o.result.value;
      && id !in s.proposals && o.after.proposals == s.proposals[id := p]
      && p == NewProposal(projectId, developerId, input, now)
      && p.status == ProposalStatus.Pending && p.projectId == projectId && p.developerId == developerId
      && |o.after.notifications| == |s.notifications| + 1
      && (exists n: Id :: n !in s.notifications && n in o.after.notifications && o.after.notifications == s.notifications[n := o.after.notifications[n]]
            && o.after.notifications[n].userId == s.projects[projectId].studentId
            && o.after.notifications[n].relatedId == Some(id))
      && o.after.projects == s.projects && o.after.users == s.users
  {
    var o := CreateProposalOutcome(s, projectId, developerId, input, now);
    var id := s.nextId;
    assert id + 1 !in s.notifications;
    assert o.after.notifications == s.notifications[id + 1 := o.after.notifications[id + 1]];
  }

  /** createProposal is the only way bids are added, and it keeps one bid per
      developer and project. */
  lemma CreateProposalKeepsUniqueBids(s: Store, projectId: Id, developerId: Id, input: ProposalInput, now: Time)
    requires s.Valid() && UniqueBids(s.proposals)
    ensures UniqueBids(CreateProposalOutcome(s, projectId, developerId, input, now).after.proposals)
  {
    var o := CreateProposalOutcome(s, projectId, developerId, input, now);
    CreateProposalGuards(s, projectId, developerId, input, now);
    if o.result.Ok? {
      CreateProposalEffect(s, projectId, developerId, input, now);
      AddBidKeepsUnique(s.proposals, o.result.value.0, o.result.value.1);
    }
  }

  /** Inserting a bid under a new key keeps bids unique when its developer has
      none on its project yet. */
  lemma AddBidKeepsUnique(ps: map<Id, Proposal>, id: Id, p: Proposal)
    requires UniqueBids(ps) && id !in ps && !HasBid(ps, p.projectId, p.developerId)
    ensures UniqueBids(ps[id := p])
  {
  }

  /** getProposalById: 404 when the proposal does not exist. */
  function GetProposalById(s: Store, proposalId: Id): (r: Result<ProposalDetails>)
    ensures r.Err? <==> proposalId !in s.proposals
    ensures r.Err? ==> r.error == AppError("Proposal not found", 404)
    ensures r.Ok? ==> r.value.proposal == s.proposals[proposalId] && r.value.id == proposalId
    ensures r.Ok? ==> (r.value.project.Some? <==> s.proposals[proposalId].projectId in s.projects)
  {
    if proposalId !in s.proposals then Err(AppError("Proposal not found", 404))
    else
      var p := s.proposals[proposalId];
      Ok(ProposalDetails(proposalId, p,
         if p.developerId in s.users then Some(s.users[p.developerId]) else None,
         if p.projectId in s.projects then Some(s.projects[p.projectId]) else None))
  }

  /** The two UPDATEs of acceptProposal: the target becomes accepted, every
      other proposal of its project rejected, whatever their status was. */
  function Arbitrate(ps: map<Id, Proposal>, projectId: Id, target: Id): (r: map<Id, Proposal>)
    requires target in ps && ps[target].projectId == projectId
    ensures r.Keys == ps.Keys
  {
    map k | k in ps ::
      if k == target then ps[k].(status := Accepted)
      else if ps[k].projectId == projectId then ps[k].(status := Rejected)
      else ps[k]
  }

  function AcceptProposalOutcome(s: Store, proposalId: Id, studentId: Id, now: Time): (o: Outcome<string>)
    requires s.Valid()
    ensures o.after.Valid()
  {
    if proposalId !in s.proposals then Fail(s, "Proposal not found", 404)
    else
      var p := s.proposals[proposalId];
      if p.projectId !in s.projects then Fail(s, "Project not found", 404)
      else
        var project := s.projects[p.projectId];
        if project.studentId != studentId then Fail(s, "Unauthorized to accept this proposal", 403)
        else
          var id := Fresh(s);
          var n := NewNotification(p.developerId, "Proposal Accepted!",
                                   "Your proposal for \"" + project.title + "\" has been accepted",
                                   "proposal_accepted", Some(proposalId), now);
          Outcome(Ok("Proposal accepted successfully"),
                  s.(proposals := Arbitrate(s.proposals, p.projectId, proposalId),
                     projects := s.projects[p.projectId := project.(status := InProgress,
                                                                   acceptedProposalId := Some(proposalId))],
                     notifications := s.notifications[id := n],
                     nextId := id + 1))
  }

  /** acceptProposal fails with 404 for an unknown proposal or project and
      with 403 for anyone but the project's student; otherwise it succeeds,
      whatever the project's status. */
  lemma AcceptProposalGuards(s: Store, proposalId: Id, studentId: Id, now: Time)
    requires s.Valid()
    ensures var o := AcceptProposalOutcome(s, proposalId, studentId, now);
      && (proposalId !in s.proposals ==> o.result == Err(AppError("Proposal not found", 404)))
      && (proposalId in s.proposals && s.proposals[proposalId].projectId !in s.projects ==>
            o.result == Err(AppError("Project not found", 404)))
      && (proposalId in s.proposals && s.proposals[proposalId].projectId in s.projects
          && s.projects[s.proposals[proposalId].projectId].studentId != studentId ==>
            o.result == Err(AppError("Unauthorized to accept this proposal", 403)))
      && (proposalId in s.proposals && s.proposals[proposalId].projectId in s.projects ==>
            (o.result.Ok? <==> s.projects[s.proposals[proposalId].projectId].studentId == studentId))
      && (o.result.Err? ==> o.after == s)
  {
  }

  /** After an accept, the target is the one accepted proposal of its
      project, its siblings are rejected, other projects' proposals are
      untouched, and the project is in progress pointing at the target. */
  lemma AcceptProposalEffect(s: Store, proposalId: Id, studentId: Id, now: Time)
    requires s.Valid()
    requires AcceptProposalOutcome(s, proposalId, studentId, now).result.Ok?
    ensures var o := AcceptProposalOutcome(s, proposalId, studentId, now);
      var projectId := s.proposals[proposalId].projectId;
      var ps := o.after.proposals;
      && ps.Keys == s.proposals.Keys
      && (forall k :: k in ps && ps[k].projectId == projectId ==> (ps[k].status == Accepted <==> k == proposalId))
      && (forall k :: k in ps && ps[k].projectId == projectId && k != proposalId ==> ps[k].status == Rejected)
      && (forall k :: k in ps && ps[k].projectId != projectId ==> ps[k] == s.proposals[k])
      && ps[proposalId] == s.proposals[proposalId].(status := Accepted)
      && (forall k :: k in s.proposals && k != proposalId && s.proposals[k].projectId == projectId ==>
            ps[k] == s.proposals[k].(status := Rejected))
      && o.after.projects[projectId].status == InProgress
      && o.after.projects[projectId].acceptedProposalId == Some(proposalId)
      && (forall k :: k in s.projects && k != projectId ==> o.after.projects[k] == s.projects[k])
      && o.after.projects == s.projects[projectId := s.projects[projectId].(status := InProgress,
                                                                          acceptedProposalId := Some(proposalId))]
  {
  }

  /** An accept notifies the winning developer under a fresh key and touches
      no table besides proposals, projects and notifications. */
  lemma AcceptProposalNotifies(s: Store, proposalId: Id, studentId: Id, now: Time)
    requires s.Valid()
    requires AcceptProposalOutcome(s, proposalId, studentId, now).result.Ok?
    ensures var o := AcceptProposalOutcome(s, proposalId, studentId, now);
      var n := s.nextId;
      && n !in s.notifications && o.after.notifications.Keys == s.notifications.Keys + {n}
      && (forall k :: k in s.notifications ==> o.after.notifications[k] == s.notifications[k])
      && o.after.notifications[n].userId == s.proposals[proposalId].developerId
      && o.after.notifications[n].title == "Proposal Accepted!"
      && o.after.notifications[n].relatedId == Some(proposalId)
      && !o.after.notifications[n].isRead
      && o.after.users == s.users && o.after.payments == s.payments && o.after.reviews == s.reviews
      && o.after.messages == s.messages && o.after.otps == s.otps && o.after.disputes == s.disputes
  {
  }

  /** Nothing stops a second accept: accepting another proposal of the same
      project re-points the project and rejects the first one. */
  lemma SecondAcceptRepoints(s: Store, first: Id, second: Id, studentId: Id, now: Time)
    requires s.Valid()
    requires AcceptProposalOutcome(s, first, studentId, now).result.Ok?
    requires second in s.proposals && second != first
    requires s.proposals[second].projectId == s.proposals[first].projectId
    ensures var t := AcceptProposalOutcome(s, first, studentId, now).after;
      var o := AcceptProposalOutcome(t, second, studentId, now);
      var projectId := s.proposals[first].projectId;
      && o.result.Ok?
      && o.after.proposals[first].status == Rejected
      && o.after.proposals[second].status == Accepted
      && o.after.projects[projectId].acceptedProposalId == Some(second)
  {
  }

  function RejectProposalOutcome(s: Store, proposalId: Id, studentId: Id): (o: Outcome<string>)
    requires s.Valid()
    ensures o.after.Valid()
  {
    if proposalId !in s.proposals then Fail(s, "Proposal not found", 404)
    else
      var p := s.proposals[proposalId];
      if p.projectId !in s.projects then
        Outcome(Err(Fault("Cannot read properties of undefined (reading 'student_id')")), s)
      else if s.projects[p.projectId].studentId != studentId then
        Fail(s, "Unauthorized to reject this proposal", 403)
      else
        Outcome(Ok("Proposal rejected successfully"),
                s.(proposals := s.proposals[proposalId := p.(status := Rejected)]))
  }

  /** rejectProposal changes nothing but the target's status, and only for
      the project's student; a proposal whose project is gone crashes. */
  lemma RejectProposalEffect(s: Store, proposalId: Id, studentId: Id)
    requires s.Valid()
    ensures var o := RejectProposalOutcome(s, proposalId, studentId);
      && (o.result.Ok? <==> proposalId in s.proposals && s.proposals[proposalId].projectId in s.projects
                             && s.projects[s.proposals[proposalId].projectId].studentId == studentId)
      && (o.result.Ok? ==> o.after == s.(proposals := s.proposals[proposalId := s.proposals[proposalId].(status := Rejected)]))
      && (o.result.Err? ==> o.after == s)
      && o.after.projects == s.projects
  {
  }

  class ProposalServiceImpl {
    const db: Db

    constructor (db: Db)
      ensures this.db == db
    {
      this.db := db;
    }

    method CreateProposal(projectId: Id, developerId: Id, input: ProposalInput, now: Time)
      returns (r: Result<(Id, Proposal)>)
      requires db.Valid()
      modifies db
      ensures var o := CreateProposalOutcome(old(db.State()), projectId, developerId, input, now);
        r == o.result && db.State() == o.after
      ensures db.Valid()
    {
      if projectId !in db.projects {
        return Err(AppError("Project not found", 404));
      }
      var project := db.projects[projectId];
      if project.status != Open {
        return Err(AppError("Project is not accepting proposals", 400));
      }
      if HasBid(db.proposals, projectId, developerId) {
        return Err(AppError("You have already sent a proposal for this project", 400));
      }
      var id := db.NewId();
      var p := NewProposal(projectId, developerId, input, now);
      db.proposals := db.proposals[id := p];
      db.Notify(NewNotification(project.studentId, "New Proposal Received",
                                "You received a new proposal for \"" + project.title + "\"",
                                "proposal", Some(id), now));
      r := Ok((id, p));
    }

    method AcceptProposal(proposalId: Id, studentId: Id, now: Time) returns (r: Result<string>)
      requires db.Valid()
      modifies db
      ensures var o := AcceptProposalOutcome(old(db.State()), proposalId, studentId, now);
        r == o.result && db.State() == o.after
      ensures db.Valid()
    {
      var details := GetProposalById(db.State(), proposalId);
      if details.Err? {
        return Err(details.error);
      }
      var p := details.value.proposal;
      if p.projectId !in db.projects {
        return Err(AppError("Project not found", 404));
      }
      var project := db.projects[p.projectId];
      if project.studentId != studentId {
        return Err(AppError("Unauthorized to accept this proposal", 403));
      }
      db.proposals := Arbitrate(db.proposals, p.projectId, proposalId);
      db.projects := db.projects[p.projectId := project.(status := InProgress,
                                                       acceptedProposalId := Some(proposalId))];
      db.Notify(NewNotification(p.developerId, "Proposal Accepted!",
                                "Your proposal for \"" + project.title + "\" has been accepted",
                                "proposal_accepted", Some(proposalId), now));
      r := Ok("Proposal accepted successfully");
    }

    method RejectProposal(proposalId: Id, studentId: Id) returns (r: Result<string>)
      requires db.Valid()
      modifies db
      ensures var o := RejectProposalOutcome(old(db.State()), proposalId, studentId);
        r == o.result && db.State() == o.after
      ensures db.Valid()
    {
      var details := GetProposalById(db.State(), proposalId);
      if details.Err? {
        return Err(details.error);
      }
      var p := details.value.proposal;
      if p.projectId !in db.projects {
        return Err(Fault("Cannot read properties of undefined (reading 'student_id')"));
      }
      if db.projects[p.projectId].studentId != studentId {
        return Err(AppError("Unauthorized to reject this proposal", 403));
      }
      db.proposals := db.proposals[proposalId := p.(status := Rejected)];
      r := Ok("Proposal rejected successfully");
    }
  }
}
