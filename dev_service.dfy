/** The developer dashboard (src/services/devService.ts): the developer's
    name and rating, the success rate of their proposals, their recent
    activity, and the project browser with their own bids marked. */
module DevService {
  import opened Wrappers
  import opened Models
  import opened Text
  import opened Ordering
  import opened Database
  import opened Activity
  import ProjectService
  import NotificationService

  // -------------------------------------------------------- success rate

  /** `total > 0 ? Math.round(accepted / total * 100) : 0`, where
      `Math.round(x)` is `floor(x + 1/2)`. */
  function SuccessRate(accepted: nat, total: nat): (r: nat)
    ensures total == 0 ==> r == 0
  {
    if total == 0 then 0 else (200 * accepted + total) / (2 * total)
  }

  /** The rate is the whole percentage nearest to accepted / total, halves
      rounded up: `r - 1/2 <= 100 * accepted / total < r + 1/2`. */
  lemma SuccessRateNearest(accepted: nat, total: nat)
    requires total > 0
    ensures var r := SuccessRate(accepted, total);
      2 * r * total <= 200 * accepted + total < 2 * (r + 1) * total
  {
    var r := SuccessRate(accepted, total);
    var x := 200 * accepted + total;
    assert x == (x / (2 * total)) * (2 * total) + x % (2 * total);
    assert 2 * r * total == r * (2 * total);
    assert 2 * (r + 1) * total == r * (2 * total) + 2 * total;
  }

  /** With no more accepted proposals than proposals, the rate is a
      percentage. */
  lemma SuccessRateBounds(accepted: nat, total: nat)
    requires accepted <= total
    ensures SuccessRate(accepted, total) <= 100
    ensures accepted == total && total > 0 ==> SuccessRate(accepted, total) == 100
  {
    if total > 0 {
      var r := SuccessRate(accepted, total);
      SuccessRateNearest(accepted, total);
      ProductSign(2 * (r as int) - 201, total);
      ProductSign(2 * (r as int) - 199, total);
    }
  }

  /** The sign of a product with a positive factor is that of the other. */
  lemma ProductSign(x: int, t: nat)
    requires t > 0
    ensures x > 0 ==> x * t > 0
    ensures x <= 0 ==> x * t <= 0
  {
  }

  function ProposalsBy(ps: map<Id, Proposal>, developerId: Id): (r: set<Id>)
    ensures forall k :: k in r <==> k in ps && ps[k].developerId == developerId
  {
    set k | k in ps && ps[k].developerId == developerId
  }

  function AcceptedBy(ps: map<Id, Proposal>, developerId: Id): (r: set<Id>)
    ensures forall k :: k in r <==> k in ps && ps[k].developerId == developerId
                                    && ps[k].status == ProposalStatus.Accepted
  {
    set k | k in ps && ps[k].developerId == developerId && ps[k].status == ProposalStatus.Accepted
  }

  /** getDashboardStats' success rate over the developer's proposals. */
  function DeveloperSuccessRate(s: Store, developerId: Id): (r: nat)
    ensures r <= 100
    ensures ProposalsBy(s.proposals, developerId) == {} ==> r == 0
    ensures r == SuccessRate(|AcceptedBy(s.proposals, developerId)|, |ProposalsBy(s.proposals, developerId)|)
  {
    var accepted := AcceptedBy(s.proposals, developerId);
    var all := ProposalsBy(s.proposals, developerId);
    assert all == accepted + (all - accepted);
    SuccessRateBounds(|accepted|, |all|);
    SuccessRate(|accepted|, |all|)
  }

  // ------------------------------------------------------ recent activity

  /** An accepted proposal of the developer whose project exists (the
      join). */
  predicate AcceptedRow(s: Store, k: Id, developerId: Id) {
    k in s.proposals && s.proposals[k].developerId == developerId
    && s.proposals[k].status == ProposalStatus.Accepted && s.proposals[k].projectId in s.projects
  }

  function ProposalUpdatedAt(p: Proposal): int { p.updatedAt }

  /** `... AND pr.status = 'accepted' ORDER BY pr.updated_at DESC LIMIT 3`. */
  function AcceptedProposalRows(s: Store, developerId: Id): (r: seq<Id>)
    ensures |r| <= 3
    ensures forall k :: k in r ==> AcceptedRow(s, k, developerId)
    ensures NewestOrder(r, s.proposals, ProposalUpdatedAt)
    ensures |r| == 3 || forall k :: AcceptedRow(s, k, developerId) ==> k in r
    ensures forall k :: AcceptedRow(s, k, developerId) && k !in r ==> NoNewerThan(k, r, s.proposals, ProposalUpdatedAt)
  {
    var sel := map k | k in s.proposals && AcceptedRow(s, k, developerId) :: s.proposals[k];
    var r := NewestPage(sel, ProposalUpdatedAt, 0, Some(3));
    NewestPageWider(sel, s.proposals, ProposalUpdatedAt, 0, Some(3));
    assert forall i :: 0 <= i < |r| ==> r[i] in sel;
    r
  }

  predicate CompletedPaymentRow(s: Store, k: Id, developerId: Id) {
    k in s.payments && s.payments[k].developerId == developerId
    && s.payments[k].status == PaymentStatus.Completed
  }

  function PaymentCreatedAt(p: Payment): int { p.createdAt }

  /** `WHERE developer_id = $1 AND status = 'completed' ORDER BY created_at
      DESC LIMIT 3`. */
  function CompletedPaymentRows(s: Store, developerId: Id): (r: seq<Id>)
    ensures |r| <= 3
    ensures forall k :: k in r ==> CompletedPaymentRow(s, k, developerId)
    ensures NewestOrder(r, s.payments, PaymentCreatedAt)
    ensures |r| == 3 || forall k :: CompletedPaymentRow(s, k, developerId) ==> k in r
    ensures forall k :: CompletedPaymentRow(s, k, developerId) && k !in r ==> NoNewerThan(k, r, s.payments, PaymentCreatedAt)
  {
    var sel := map k | k in s.payments && CompletedPaymentRow(s, k, developerId) :: s.payments[k];
    var r := NewestPage(sel, PaymentCreatedAt, 0, Some(3));
    NewestPageWider(sel, s.payments, PaymentCreatedAt, 0, Some(3));
    assert forall i :: 0 <= i < |r| ==> r[i] in sel;
    r
  }

  /** The entry for an accepted proposal; its id names the project. */
  function AcceptedActivity(s: Store, k: Id, now: Time, date: Time -> string): Activity
    requires k in s.proposals && s.proposals[k].projectId in s.projects
  {
    var pr := s.proposals[k];
    Activity(EntryKey("proposal", pr.projectId), "proposal_accepted", "Proposal accepted",
             s.projects[pr.projectId].title, "check-circle", "green", pr.updatedAt,
             DevTimeAgo(now, pr.updatedAt, date))
  }

  function MessageActivity(s: Store, k: Id, now: Time, date: Time -> string): Activity
    requires k in s.messages && s.messages[k].senderId in s.users
  {
    var m := s.messages[k];
    Activity(EntryKey("message", k), "new_message", "New message received",
             "From " + s.users[m.senderId].name, "chat-bubble", "blue", m.createdAt,
             DevTimeAgo(now, m.createdAt, date))
  }

  /** `amountText` is the amount's `toLocaleString('en-IN')`. */
  function PaymentActivity(s: Store, k: Id, now: Time, date: Time -> string, amountText: real -> string): Activity
    requires k in s.payments
  {
    var p := s.payments[k];
    Activity(EntryKey("payment", k), "payment_received", "Payment received",
             "\U{20B9}" + amountText(p.netAmount), "rupee", "pink", p.createdAt,
             DevTimeAgo(now, p.createdAt, date))
  }

  function AcceptedActivities(s: Store, ids: seq<Id>, now: Time, date: Time -> string): (r: seq<Activity>)
    requires forall k :: k in ids ==> k in s.proposals && s.proposals[k].projectId in s.projects
    ensures |r| == |ids|
    ensures forall i :: 0 <= i < |ids| ==> r[i] == AcceptedActivity(s, ids[i], now, date)
  {
    if ids == [] then []
    else AcceptedActivities(s, ids[..|ids| - 1], now, date) + [AcceptedActivity(s, ids[|ids| - 1], now, date)]
  }

  function MessageActivities(s: Store, ids: seq<Id>, now: Time, date: Time -> string): (r: seq<Activity>)
    requires forall k :: k in ids ==> k in s.messages && s.messages[k].senderId in s.users
    ensures |r| == |ids|
    ensures forall i :: 0 <= i < |ids| ==> r[i] == MessageActivity(s, ids[i], now, date)
  {
    if ids == [] then []
    else MessageActivities(s, ids[..|ids| - 1], now, date) + [MessageActivity(s, ids[|ids| - 1], now, date)]
  }

  function PaymentActivities(s: Store, ids: seq<Id>, now: Time, date: Time -> string, amountText: real -> string)
    : (r: seq<Activity>)
    requires forall k :: k in ids ==> k in s.payments
    ensures |r| == |ids|
    ensures forall i :: 0 <= i < |ids| ==> r[i] == PaymentActivity(s, ids[i], now, date, amountText)
  {
    if ids == [] then []
    else PaymentActivities(s, ids[..|ids| - 1], now, date, amountText)
         + [PaymentActivity(s, ids[|ids| - 1], now, date, amountText)]
  }

  /** Everything pushed before the sort: accepted proposals, then messages,
      then payments, at most three of each. */
  function DeveloperFeed(s: Store, developerId: Id, now: Time, date: Time -> string, amountText: real -> string)
    : (r: seq<Activity>)
    ensures |r| <= 9
    ensures FeedOrder(r, s, AcceptedProposalRows(s, developerId), ReceivedMessageRows(s, developerId, 3),
                      CompletedPaymentRows(s, developerId), now, date, amountText)
  {
    Feed(s, AcceptedProposalRows(s, developerId), ReceivedMessageRows(s, developerId, 3),
         CompletedPaymentRows(s, developerId), now, date, amountText)
  }

  /** The rows of the three feed queries point at existing rows (the inner joins). */
  predicate FeedRows(s: Store, acc: seq<Id>, msg: seq<Id>, pay: seq<Id>) {
    && (forall k :: k in acc ==> k in s.proposals && s.proposals[k].projectId in s.projects)
    && (forall k :: k in msg ==> k in s.messages && s.messages[k].senderId in s.users)
    && (forall k :: k in pay ==> k in s.payments)
  }

  /** `r` holds the entries of the accepted proposals `acc`, then those of the
      messages `msg`, then those of the payments `pay`; each of the three lists
      holds the entry of its i-th row at position i. */
  predicate FeedOrder(r: seq<Activity>, s: Store, acc: seq<Id>, msg: seq<Id>, pay: seq<Id>, now: Time,
                      date: Time -> string, amountText: real -> string)
    requires FeedRows(s, acc, msg, pay)
  {
    && |r| == |acc| + |msg| + |pay|
    && r[..|acc|] == AcceptedActivities(s, acc, now, date)
    && r[|acc|..|acc| + |msg|] == MessageActivities(s, msg, now, date)
    && r[|acc| + |msg|..] == PaymentActivities(s, pay, now, date, amountText)
  }

  /** The three `forEach` loops in turn: each kind of entry at its place. */
  function Feed(s: Store, acc: seq<Id>, msg: seq<Id>, pay: seq<Id>, now: Time, date: Time -> string,
                amountText: real -> string): (r: seq<Activity>)
    requires FeedRows(s, acc, msg, pay)
    ensures FeedOrder(r, s, acc, msg, pay, now, date, amountText)
  {
    var a := AcceptedActivities(s, acc, now, date);
    var b := MessageActivities(s, msg, now, date);
    var c := PaymentActivities(s, pay, now, date, amountText);
    ThreePartSlices(a, b, c);
    a + b + c
  }

  /** Where the parts of a three-part concatenation sit. */
  lemma ThreePartSlices<T>(a: seq<T>, b: seq<T>, c: seq<T>)
    ensures var r := a + b + c;
      && r[..|a|] == a && r[|a|..|a| + |b|] == b && r[|a| + |b|..] == c
  {
    var r := a + b + c;
    assert r[..|a|] == a;
    assert r[|a|..|a| + |b|] == b;
    assert r[|a| + |b|..] == c;
  }

  /** `proposalsResult.rows.forEach(row => activities.push(...))`. */
  method PushAccepted(activities: seq<Activity>, s: Store, rows: seq<Id>, now: Time, date: Time -> string)
    returns (r: seq<Activity>)
    requires forall k :: k in rows ==> k in s.proposals && s.proposals[k].projectId in s.projects
    ensures r == activities + AcceptedActivities(s, rows, now, date)
  {
    r := activities;
    for i := 0 to |rows|
      invariant r == activities + AcceptedActivities(s, rows[..i], now, date)
    {
      assert rows[..i + 1][..i] == rows[..i];
      r := r + [AcceptedActivity(s, rows[i], now, date)];
    }
    assert rows[..|rows|] == rows;
  }

  /** `messagesResult.rows.forEach(row => activities.push(...))`. */
  method PushMessages(activities: seq<Activity>, s: Store, rows: seq<Id>, now: Time, date: Time -> string)
    returns (r: seq<Activity>)
    requires forall k :: k in rows ==> k in s.messages && s.messages[k].senderId in s.users
    ensures r == activities + MessageActivities(s, rows, now, date)
  {
    r := activities;
    for i := 0 to |rows|
      invariant r == activities + MessageActivities(s, rows[..i], now, date)
    {
      assert rows[..i + 1][..i] == rows[..i];
      r := r + [MessageActivity(s, rows[i], now, date)];
    }
    assert rows[..|rows|] == rows;
  }

  /** `paymentsResult.rows.forEach(row => activities.push(...))`. */
  method PushPayments(activities: seq<Activity>, s: Store, rows: seq<Id>, now: Time, date: Time -> string,
                      amountText: real -> string) returns (r: seq<Activity>)
    requires forall k :: k in rows ==> k in s.payments
    ensures r == activities + PaymentActivities(s, rows, now, date, amountText)
  {
    r := activities;
    for i := 0 to |rows|
      invariant r == activities + PaymentActivities(s, rows[..i], now, date, amountText)
    {
      assert rows[..i + 1][..i] == rows[..i];
      r := r + [PaymentActivity(s, rows[i], now, date, amountText)];
    }
    assert rows[..|rows|] == rows;
  }

  /** getRecentActivity. At most nine entries are collected, so the cut to
      ten keeps them all; they come back newest first. */
  method RecentActivity(s: Store, developerId: Id, now: Time, date: Time -> string, amountText: real -> string)
    returns (r: seq<Activity>)
    ensures r == MostRecent(DeveloperFeed(s, developerId, now, date, amountText), 10)
    ensures multiset(r) == multiset(DeveloperFeed(s, developerId, now, date, amountText))
    ensures SortedDesc(r, ActivityTime) && |r| <= 9
  {
    var accepted := AcceptedProposalRows(s, developerId);
    var messages := ReceivedMessageRows(s, developerId, 3);
    var payments := CompletedPaymentRows(s, developerId);
    var a := AcceptedActivities(s, accepted, now, date);
    var m := MessageActivities(s, messages, now, date);
    var p := PaymentActivities(s, payments, now, date, amountText);
    assert DeveloperFeed(s, developerId, now, date, amountText) == a + m + p;
    var activities := PushAccepted([], s, accepted, now, date);
    assert activities == a;
    activities := PushMessages(activities, s, messages, now, date);
    assert activities == a + m;
    activities := PushPayments(activities, s, payments, now, date, amountText);
    assert activities == a + m + p;
    r := MostRecent(activities, 10);
  }

  /** getQuickActions of the developer dashboard. */
  function QuickActions(): (qs: seq<QuickAction>)
    ensures NumberedOneToFour(qs)
  {
    [QuickAction(1, "Browse Projects", "search", "blue", "browse_projects"),
     QuickAction(2, "My Earnings", "wallet", "green", "my_earnings"),
     QuickAction(3, "Upload Files", "cloud-upload", "purple", "upload_files"),
     QuickAction(4, "Withdraw", "money-send", "pink", "withdraw")]
  }

  // ------------------------------------------------------------ home data

  datatype DeveloperHome = DeveloperHome(
    name: string,
    rating: real,
    proposalsSent: nat,
    successRate: nat,
    quickActions: seq<QuickAction>,
    recentActivity: seq<Activity>,
    unreadNotificationsCount: nat)

  /** `parseFloat(rating || '0.0')`: an unrated developer shows 0. */
  function RatingOrZero(rating: Option<real>): (r: real)
    ensures rating.None? ==> r == 0.0
    ensures rating.Some? ==> r == rating.value
  {
    rating.GetOr(0.0)
  }

  /** getDeveloperHomeData. */
  method GetDeveloperHomeData(s: Store, userId: Id, now: Time, date: Time -> string, amountText: real -> string)
    returns (r: Result<DeveloperHome>)
    ensures userId !in s.users <==> r == Err(AppError("Developer not found", 404))
    ensures r.Ok? ==>
      && userId in s.users
      && r.value.name == s.users[userId].name
      && r.value.rating == RatingOrZero(s.users[userId].rating)
      && r.value.proposalsSent == |ProposalsBy(s.proposals, userId)|
      && r.value.successRate == DeveloperSuccessRate(s, userId) && r.value.successRate <= 100
      && NumberedOneToFour(r.value.quickActions) && r.value.quickActions == QuickActions()
      && r.value.recentActivity == MostRecent(DeveloperFeed(s, userId, now, date, amountText), 10)
      && multiset(r.value.recentActivity) == multiset(DeveloperFeed(s, userId, now, date, amountText))
      && r.value.unreadNotificationsCount == NotificationService.UnreadCount(s.notifications, userId)
  {
    if userId !in s.users {
      return Err(AppError("Developer not found", 404));
    }
    var developer := s.users[userId];
    var activity := RecentActivity(s, userId, now, date, amountText);
    r := Ok(DeveloperHome(developer.name, RatingOrZero(developer.rating), |ProposalsBy(s.proposals, userId)|,
                          DeveloperSuccessRate(s, userId), QuickActions(), activity,
                          NotificationService.UnreadCount(s.notifications, userId)));
  }

  // ------------------------------------------------------------- browsing

  /** A project of the browser with the developer's own bid on it. */
  datatype BrowseRow = BrowseRow(projectId: Id, proposalsCount: nat, hasApplied: nat, myProposalId: Option<Id>)

  /** `(SELECT COUNT(*) FROM proposals WHERE project_id = p.id AND
      developer_id = $1)`. */
  function BidsBy(ps: map<Id, Proposal>, projectId: Id, developerId: Id): (r: set<Id>)
    ensures forall k :: k in r <==> k in ps && ps[k].projectId == projectId && ps[k].developerId == developerId
  {
    set k | k in ps && ps[k].projectId == projectId && ps[k].developerId == developerId
  }

  /** `(SELECT id FROM proposals WHERE ... LIMIT 1)`: one of those bids. */
  function MyProposal(ps: map<Id, Proposal>, projectId: Id, developerId: Id): (r: Option<Id>)
    ensures r.Some? <==> BidsBy(ps, projectId, developerId) != {}
    ensures r.Some? ==> r.value in BidsBy(ps, projectId, developerId)
  {
    var found := FirstWhere(ps, (p: Proposal) => p.projectId == projectId && p.developerId == developerId);
    if found.Some? then
      assert found.value in BidsBy(ps, projectId, developerId);
      found
    else
      assert BidsBy(ps, projectId, developerId) == {};
      found
  }

  function BrowseRowOf(s: Store, projectId: Id, developerId: Id): (row: BrowseRow)
    ensures row.projectId == projectId
    ensures row.hasApplied == |BidsBy(s.proposals, projectId, developerId)|
    ensures row.myProposalId.Some? <==> row.hasApplied > 0
    ensures row.myProposalId.Some? ==> row.myProposalId.value in BidsBy(s.proposals, projectId, developerId)
    ensures row.myProposalId.Some? ==> var p := s.proposals[row.myProposalId.value];
      p.projectId == projectId && p.developerId == developerId
  {
    var mine := MyProposal(s.proposals, projectId, developerId);
    assert mine.Some? ==> mine.value in BidsBy(s.proposals, projectId, developerId);
    BrowseRow(projectId, ProjectService.ProposalsCount(s.proposals, projectId),
              |BidsBy(s.proposals, projectId, developerId)|, mine)
  }

  /** browseProjects: the projects getProjects lists for the same filters,
      in the same order, each with the developer's bid on it. */
  function BrowseProjects(s: Store, developerId: Id, f: ProjectService.ProjectFilter): (r: seq<BrowseRow>)
    ensures var ids := ProjectService.ListProjects(s.projects, f);
      |r| == |ids| && forall i :: 0 <= i < |r| ==> r[i] == BrowseRowOf(s, ids[i], developerId)
  {
    BrowseRows(s, ProjectService.ListProjects(s.projects, f), developerId)
  }

  function BrowseRows(s: Store, ids: seq<Id>, developerId: Id): (r: seq<BrowseRow>)
    ensures |r| == |ids| && forall i :: 0 <= i < |r| ==> r[i] == BrowseRowOf(s, ids[i], developerId)
  {
    seq(|ids|, i requires 0 <= i < |ids| => BrowseRowOf(s, ids[i], developerId))
  }

  /** Every browsed project passes the filters. */
  lemma BrowsedProjectsMatch(s: Store, developerId: Id, f: ProjectService.ProjectFilter)
    ensures var r := BrowseProjects(s, developerId, f);
      forall i :: 0 <= i < |r| ==> r[i].projectId in s.projects && ProjectService.Matches(f, s.projects[r[i].projectId])
  {
    var r := BrowseProjects(s, developerId, f);
    var ids := ProjectService.ListProjects(s.projects, f);
    forall i | 0 <= i < |r|
      ensures r[i].projectId in s.projects && ProjectService.Matches(f, s.projects[r[i].projectId])
    {
      assert r[i].projectId == ids[i];
    }
  }
}
