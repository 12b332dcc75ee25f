/** The home screen (src/services/homeService.ts): the user's name, which
    set of dashboard counters their role gets, a recent-activity feed that
    depends on the role, and four role-specific shortcuts. The role is the
    text carried by the request, compared with "student" and "developer". */
module HomeService {
  import opened Wrappers
  import opened Models
  import opened Ordering
  import opened Database
  import opened Activity

  // ------------------------------------------------------- role dispatch

  /** Which counters getHomeData computes. */
  datatype MetricsKind = StudentMetrics | DeveloperMetrics | AdminMetrics

  /** Students and developers get their own counters; every other role text
      gets the system-wide ones. */
  function MetricsFor(role: string): (k: MetricsKind)
    ensures k == StudentMetrics <==> role == "student"
    ensures k == DeveloperMetrics <==> role == "developer"
    ensures k == AdminMetrics <==> role != "student" && role != "developer"
  {
    if role == "student" then StudentMetrics
    else if role == "developer" then DeveloperMetrics
    else AdminMetrics
  }

  // ------------------------------------------------------------ the rows

  /** A proposal on one of the student's projects from a developer who
      still exists (the two joins). */
  predicate ReceivedProposal(s: Store, k: Id, studentId: Id) {
    k in s.proposals && s.proposals[k].projectId in s.projects
    && s.projects[s.proposals[k].projectId].studentId == studentId
    && s.proposals[k].developerId in s.users
  }

  /** A proposal the developer sent on a project that still exists. */
  predicate SentProposal(s: Store, k: Id, developerId: Id) {
    k in s.proposals && s.proposals[k].developerId == developerId && s.proposals[k].projectId in s.projects
  }

  function ProposalCreatedAt(p: Proposal): int { p.createdAt }

  /** `WHERE pr.student_id = $1 ORDER BY p.created_at DESC LIMIT 5`. */
  function ReceivedProposalRows(s: Store, studentId: Id): (r: seq<Id>)
    ensures |r| <= 5
    ensures forall k :: k in r ==> ReceivedProposal(s, k, studentId)
    ensures NewestOrder(r, s.proposals, ProposalCreatedAt)
    ensures |r| == 5 || forall k :: ReceivedProposal(s, k, studentId) ==> k in r
    ensures forall k :: ReceivedProposal(s, k, studentId) && k !in r ==> NoNewerThan(k, r, s.proposals, ProposalCreatedAt)
  {
    var sel := map k | k in s.proposals && ReceivedProposal(s, k, studentId) :: s.proposals[k];
    var r := NewestPage(sel, ProposalCreatedAt, 0, Some(5));
    NewestPageWider(sel, s.proposals, ProposalCreatedAt, 0, Some(5));
    assert forall i :: 0 <= i < |r| ==> r[i] in sel;
    r
  }

  /** `WHERE p.developer_id = $1 ORDER BY p.created_at DESC LIMIT 5`. */
  function SentProposalRows(s: Store, developerId: Id): (r: seq<Id>)
    ensures |r| <= 5
    ensures forall k :: k in r ==> SentProposal(s, k, developerId)
    ensures NewestOrder(r, s.proposals, ProposalCreatedAt)
    ensures |r| == 5 || forall k :: SentProposal(s, k, developerId) ==> k in r
    ensures forall k :: SentProposal(s, k, developerId) && k !in r ==> NoNewerThan(k, r, s.proposals, ProposalCreatedAt)
  {
    var sel := map k | k in s.proposals && SentProposal(s, k, developerId) :: s.proposals[k];
    var r := NewestPage(sel, ProposalCreatedAt, 0, Some(5));
    NewestPageWider(sel, s.proposals, ProposalCreatedAt, 0, Some(5));
    assert forall i :: 0 <= i < |r| ==> r[i] in sel;
    r
  }

  // ----------------------------------------------------------- the entries

  function ReceivedActivity(s: Store, k: Id, now: Time, date: Time -> string): Activity
    requires k in s.proposals && s.proposals[k].projectId in s.projects
  {
    var p := s.proposals[k];
    Activity(EntryKey("proposal", k), "proposal_received", "New proposal received",
             s.projects[p.projectId].title, "handshake", "green", p.createdAt,
             HomeTimeAgo(now, p.createdAt, date))
  }

  /** A sent proposal is shown as accepted, in green, exactly when its status
      is accepted, and as sent, in purple, otherwise. */
  function SentActivity(s: Store, k: Id, now: Time, date: Time -> string): Activity
    requires k in s.proposals && s.proposals[k].projectId in s.projects
  {
    var p := s.proposals[k];
    var accepted := p.status == ProposalStatus.Accepted;
    Activity(EntryKey("proposal", k), if accepted then "proposal_accepted" else "proposal_sent",
             if accepted then "Proposal accepted" else "Proposal sent",
             s.projects[p.projectId].title, "handshake", if accepted then "green" else "purple",
             p.createdAt, HomeTimeAgo(now, p.createdAt, date))
  }

  /** A message to the user; `title` is "Developer replied" on a student's
      feed and "Student replied" on a developer's. */
  function ReplyActivity(s: Store, k: Id, title: string, now: Time, date: Time -> string): Activity
    requires k in s.messages && s.messages[k].senderId in s.users
  {
    var m := s.messages[k];
    Activity(EntryKey("message", k), "message_received", title, s.users[m.senderId].name, "chat", "blue",
             m.createdAt, HomeTimeAgo(now, m.createdAt, date))
  }

  function ReceivedActivities(s: Store, ids: seq<Id>, now: Time, date: Time -> string): (r: seq<Activity>)
    requires forall k :: k in ids ==> k in s.proposals && s.proposals[k].projectId in s.projects
    ensures |r| == |ids|
    ensures forall i :: 0 <= i < |ids| ==> r[i] == ReceivedActivity(s, ids[i], now, date)
  {
    if ids == [] then []
    else ReceivedActivities(s, ids[..|ids| - 1], now, date) + [ReceivedActivity(s, ids[|ids| - 1], now, date)]
  }

  function SentActivities(s: Store, ids: seq<Id>, now: Time, date: Time -> string): (r: seq<Activity>)
    requires forall k :: k in ids ==> k in s.proposals && s.proposals[k].projectId in s.projects
    ensures |r| == |ids|
    ensures forall i :: 0 <= i < |ids| ==> r[i] == SentActivity(s, ids[i], now, date)
  {
    if ids == [] then []
    else SentActivities(s, ids[..|ids| - 1], now, date) + [SentActivity(s, ids[|ids| - 1], now, date)]
  }

  function ReplyActivities(s: Store, ids: seq<Id>, title: string, now: Time, date: Time -> string)
    : (r: seq<Activity>)
    requires forall k :: k in ids ==> k in s.messages && s.messages[k].senderId in s.users
    ensures |r| == |ids|
    ensures forall i :: 0 <= i < |ids| ==> r[i] == ReplyActivity(s, ids[i], title, now, date)
  {
    if ids == [] then []
    else ReplyActivities(s, ids[..|ids| - 1], title, now, date) + [ReplyActivity(s, ids[|ids| - 1], title, now, date)]
  }

  /** Everything pushed before the sort: for a student the proposals
      received and then the messages, for a developer the proposals sent
      and then the messages, five of each at most; nothing for any other
      role. */
  function HomeFeed(s: Store, userId: Id, role: string, now: Time, date: Time -> string): (r: seq<Activity>)
    ensures |r| <= 10
    ensures role == "student" ==> |r| == |ReceivedProposalRows(s, userId)| + |ReceivedMessageRows(s, userId, 5)|
    ensures role == "developer" ==> |r| == |SentProposalRows(s, userId)| + |ReceivedMessageRows(s, userId, 5)|
    ensures role == "student" ==>
      r == ReceivedActivities(s, ReceivedProposalRows(s, userId), now, date)
           + ReplyActivities(s, ReceivedMessageRows(s, userId, 5), "Developer replied", now, date)
    ensures role == "developer" ==>
      r == SentActivities(s, SentProposalRows(s, userId), now, date)
           + ReplyActivities(s, ReceivedMessageRows(s, userId, 5), "Student replied", now, date)
    ensures role != "student" && role != "developer" ==> r == []
  {
    if role == "student" then
      ReceivedActivities(s, ReceivedProposalRows(s, userId), now, date)
      + ReplyActivities(s, ReceivedMessageRows(s, userId, 5), "Developer replied", now, date)
    else if role == "developer" then
      SentActivities(s, SentProposalRows(s, userId), now, date)
      + ReplyActivities(s, ReceivedMessageRows(s, userId, 5), "Student replied", now, date)
    else []
  }

  /** The entry of a sent proposal says "proposal_accepted" (in green)
      exactly when the proposal was accepted, and "proposal_sent" (in
      purple) exactly when it was not. */
  lemma SentActivityLabels(s: Store, k: Id, now: Time, date: Time -> string)
    requires k in s.proposals && s.proposals[k].projectId in s.projects
    ensures var a := SentActivity(s, k, now, date);
      var accepted := s.proposals[k].status == ProposalStatus.Accepted;
      && a.key == EntryKey("proposal", k)
      && (a.kind == "proposal_accepted" <==> accepted)
      && (a.kind == "proposal_sent" <==> !accepted)
      && (a.color == "green" <==> accepted)
      && (a.color == "purple" <==> !accepted)
  {
    var a := SentActivity(s, k, now, date);
    assert "proposal_accepted"[9] != "proposal_sent"[9];
    assert "green"[0] != "purple"[0];
  }

  /** On a developer's feed, the first entries are those of the proposals
      sent, in row order. */
  lemma DeveloperFeedAt(s: Store, developerId: Id, now: Time, date: Time -> string, i: nat)
    requires i < |SentProposalRows(s, developerId)|
    ensures var rows := SentProposalRows(s, developerId);
      var feed := HomeFeed(s, developerId, "developer", now, date);
      i < |feed| && feed[i] == SentActivity(s, rows[i], now, date)
  {
    var rows := SentProposalRows(s, developerId);
    DeveloperFeedSplit(s, developerId, now, date);
  }

  lemma DeveloperFeedSplit(s: Store, developerId: Id, now: Time, date: Time -> string)
    ensures HomeFeed(s, developerId, "developer", now, date)
         == SentActivities(s, SentProposalRows(s, developerId), now, date)
            + ReplyActivities(s, ReceivedMessageRows(s, developerId, 5), "Student replied", now, date)
  {
    assert "developer"[0] != "student"[0];
  }

  // ----------------------------------------------------------- the pushes

  /** `proposalsResult.rows.forEach(row => activities.push(...))`, student. */
  method PushReceived(activities: seq<Activity>, s: Store, rows: seq<Id>, now: Time, date: Time -> string)
    returns (r: seq<Activity>)
    requires forall k :: k in rows ==> k in s.proposals && s.proposals[k].projectId in s.projects
    ensures r == activities + ReceivedActivities(s, rows, now, date)
  {
    r := activities;
    for i := 0 to |rows|
      invariant r == activities + ReceivedActivities(s, rows[..i], now, date)
    {
      assert rows[..i + 1][..i] == rows[..i];
      r := r + [ReceivedActivity(s, rows[i], now, date)];
    }
    assert rows[..|rows|] == rows;
  }

  /** `proposalsResult.rows.forEach(row => activities.push(...))`, developer. */
  method PushSent(activities: seq<Activity>, s: Store, rows: seq<Id>, now: Time, date: Time -> string)
    returns (r: seq<Activity>)
    requires forall k :: k in rows ==> k in s.proposals && s.proposals[k].projectId in s.projects
    ensures r == activities + SentActivities(s, rows, now, date)
  {
    r := activities;
    for i := 0 to |rows|
      invariant r == activities + SentActivities(s, rows[..i], now, date)
    {
      assert rows[..i + 1][..i] == rows[..i];
      r := r + [SentActivity(s, rows[i], now, date)];
    }
    assert rows[..|rows|] == rows;
  }

  /** `messagesResult.rows.forEach(row => activities.push(...))`. */
  method PushReplies(activities: seq<Activity>, s: Store, rows: seq<Id>, title: string, now: Time,
                     date: Time -> string) returns (r: seq<Activity>)
    requires forall k :: k in rows ==> k in s.messages && s.messages[k].senderId in s.users
    ensures r == activities + ReplyActivities(s, rows, title, now, date)
  {
    r := activities;
    for i := 0 to |rows|
      invariant r == activities + ReplyActivities(s, rows[..i], title, now, date)
    {
      assert rows[..i + 1][..i] == rows[..i];
      r := r + [ReplyActivity(s, rows[i], title, now, date)];
    }
    assert rows[..|rows|] == rows;
  }

  /** getRecentActivity: the feed newest first, cut to ten. At most ten
      entries are collected, so the cut keeps them all. */
  method RecentActivity(s: Store, userId: Id, role: string, now: Time, date: Time -> string)
    returns (r: seq<Activity>)
    ensures r == MostRecent(HomeFeed(s, userId, role, now, date), 10)
    ensures multiset(r) == multiset(HomeFeed(s, userId, role, now, date))
    ensures SortedDesc(r, ActivityTime)
  {
    var activities: seq<Activity> := [];
    if role == "student" {
      var proposals := ReceivedProposalRows(s, userId);
      var messages := ReceivedMessageRows(s, userId, 5);
      var a := ReceivedActivities(s, proposals, now, date);
      var m := ReplyActivities(s, messages, "Developer replied", now, date);
      assert HomeFeed(s, userId, role, now, date) == a + m;
      activities := PushReceived(activities, s, proposals, now, date);
      assert activities == a;
      activities := PushReplies(activities, s, messages, "Developer replied", now, date);
      assert activities == a + m;
    } else if role == "developer" {
      var proposals := SentProposalRows(s, userId);
      var messages := ReceivedMessageRows(s, userId, 5);
      var a := SentActivities(s, proposals, now, date);
      var m := ReplyActivities(s, messages, "Student replied", now, date);
      assert HomeFeed(s, userId, role, now, date) == a + m;
      activities := PushSent(activities, s, proposals, now, date);
      assert activities == a;
      activities := PushReplies(activities, s, messages, "Student replied", now, date);
      assert activities == a + m;
    }
    r := MostRecent(activities, 10);
  }

  // -------------------------------------------------------- quick actions

  /** getQuickActions: four shortcuts per role, numbered 1 to 4, none
      repeated. */
  function QuickActions(role: string): (qs: seq<QuickAction>)
    ensures NumberedOneToFour(qs)
    ensures forall i, j :: 0 <= i < j < |qs| ==> qs[i].action != qs[j].action
  {
    if role == "student" then
      [QuickAction(1, "Post New Project", "plus", "purple", "post_project"),
       QuickAction(2, "AI Project Ideas", "sparkles", "purple", "ai_ideas"),
       QuickAction(3, "Browse Developers", "users", "green", "browse_developers"),
       QuickAction(4, "View Reports", "chart", "pink", "view_reports")]
    else if role == "developer" then
      [QuickAction(1, "Browse Projects", "folder", "purple", "browse_projects"),
       QuickAction(2, "My Proposals", "handshake", "purple", "my_proposals"),
       QuickAction(3, "My Earnings", "dollar", "green", "my_earnings"),
       QuickAction(4, "View Reports", "chart", "pink", "view_reports")]
    else
      [QuickAction(1, "Dashboard", "dashboard", "purple", "dashboard"),
       QuickAction(2, "Manage Users", "users", "purple", "manage_users"),
       QuickAction(3, "View Disputes", "alert", "green", "view_disputes"),
       QuickAction(4, "Analytics", "chart", "pink", "analytics")]
  }

  // ------------------------------------------------------------ home data

  /** The `user` part of the reply: name, college and stored role. */
  datatype HomeUser = HomeUser(name: string, college: Option<string>, role: UserRole)

  datatype HomeData = HomeData(
    user: HomeUser,
    metrics: MetricsKind,
    recentActivity: seq<Activity>,
    quickActions: seq<QuickAction>)

  /** getHomeData: 404 for an unknown user; otherwise the stored user's
      name, college and role, and the counters, feed and shortcuts the
      request's role selects. */
  method GetHomeData(s: Store, userId: Id, role: string, now: Time, date: Time -> string)
    returns (r: Result<HomeData>)
    ensures userId !in s.users <==> r == Err(AppError("User not found", 404))
    ensures r.Ok? ==>
      && r.value.user == HomeUser(s.users[userId].name, s.users[userId].college, s.users[userId].role)
      && r.value.metrics == MetricsFor(role)
      && r.value.recentActivity == MostRecent(HomeFeed(s, userId, role, now, date), 10)
      && r.value.quickActions == QuickActions(role)
  {
    if userId !in s.users {
      return Err(AppError("User not found", 404));
    }
    var user := s.users[userId];
    var metrics := MetricsFor(role);
    var activity := RecentActivity(s, userId, role, now, date);
    r := Ok(HomeData(HomeUser(user.name, user.college, user.role), metrics, activity, QuickActions(role)));
  }
}
