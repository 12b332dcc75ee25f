/** What the developer dashboard (src/services/devService.ts) and the home
    screen (src/services/homeService.ts) share: the "time ago" label and the
    recent-activity feed, which is sorted newest first and cut to ten. */
module Activity {
  import opened Wrappers
  import opened Models
  import opened Text
  import opened Ordering
  import opened Database

  // ------------------------------------------------------------ time ago

  datatype TimeUnit = Minute | Hour | Day | Week | Month

  function UnitSeconds(u: TimeUnit): nat {
    match u
    case Minute => 60
    case Hour => 3600
    case Day => 86400
    case Week => 604800
    case Month => 2592000
  }

  function UnitName(u: TimeUnit): string {
    match u
    case Minute => "minute"
    case Hour => "hour"
    case Day => "day"
    case Week => "week"
    case Month => "month"
  }

  /** A label: "Just now", a whole number of units, or the date itself. */
  datatype Ago = JustNow | Units(count: nat, unit: TimeUnit) | OnDate

  /** `Math.floor((now - time) / 1000)` for instants in milliseconds. */
  function ElapsedSeconds(now: Time, time: Time): (e: int)
    ensures 1000 * e <= now - time < 1000 * (e + 1)
  {
    (now - time) / 1000
  }

  /** Whether `a` names the whole number of its units in `seconds`. */
  predicate WholeUnits(a: Ago, seconds: int) {
    a.Units? ==> a.count >= 1 && a.count * UnitSeconds(a.unit) <= seconds < (a.count + 1) * UnitSeconds(a.unit)
  }

  /** The bucket getTimeAgo picks in devService.ts: minutes below an hour,
      hours below a day, days below a week, weeks below 30 days, months
      below 365 days, the date beyond. A negative difference (a timestamp in
      the future) is "Just now". */
  function DevAgo(seconds: int): (a: Ago)
    ensures a == JustNow <==> seconds < 60
    ensures a == OnDate <==> seconds >= 31536000
    ensures WholeUnits(a, seconds)
    ensures a.Units? ==>
      && (a.unit == Minute <==> seconds < 3600)
      && (a.unit == Hour <==> 3600 <= seconds < 86400)
      && (a.unit == Day <==> 86400 <= seconds < 604800)
      && (a.unit == Week <==> 604800 <= seconds < 2592000)
      && (a.unit == Month <==> 2592000 <= seconds)
  {
    if seconds < 60 then JustNow
    else if seconds < 3600 then Units(seconds / 60, Minute)
    else if seconds < 86400 then Units(seconds / 3600, Hour)
    else if seconds < 604800 then Units(seconds / 86400, Day)
    else if seconds < 2592000 then Units(seconds / 604800, Week)
    else if seconds < 31536000 then Units(seconds / 2592000, Month)
    else OnDate
  }

  /** The bucket getTimeAgo picks in homeService.ts: no weeks or months;
      from a week on it is the date. */
  function HomeAgo(seconds: int): (a: Ago)
    ensures a == JustNow <==> seconds < 60
    ensures a == OnDate <==> seconds >= 604800
    ensures WholeUnits(a, seconds)
    ensures a.Units? ==> a.unit in {Minute, Hour, Day}
  {
    if seconds < 60 then JustNow
    else if seconds < 3600 then Units(seconds / 60, Minute)
    else if seconds < 86400 then Units(seconds / 3600, Hour)
    else if seconds < 604800 then Units(seconds / 86400, Day)
    else OnDate
  }

  /** The two labels agree below a week; from a week on the home screen
      shows the date. */
  lemma HomeAgoAgreesBelowAWeek(seconds: int)
    ensures seconds < 604800 ==> HomeAgo(seconds) == DevAgo(seconds)
    ensures seconds >= 604800 ==> HomeAgo(seconds) == OnDate && DevAgo(seconds) != JustNow
  {
  }

  /** `${n} ${n === 1 ? unit : unit + 's'} ago`, "Just now", or the date
      text (`toLocaleDateString`). */
  function AgoText(a: Ago, date: string): (r: string)
    ensures a.Units? ==> |r| > |NatToString(a.count)| && r[..|NatToString(a.count)|] == NatToString(a.count)
  {
    match a
    case JustNow => "Just now"
    case Units(n, u) => NatToString(n) + " " + UnitName(u) + (if n == 1 then "" else "s") + " ago"
    case OnDate => date
  }

  /** The number at the head of a label reads back as the count. */
  lemma AgoTextCount(a: Ago, date: string)
    requires a.Units?
    ensures DecimalValue(AgoText(a, date)[..|NatToString(a.count)|]) == a.count
  {
    DecimalRoundTrip(a.count);
  }

  /** A label in units ends in "s ago" exactly when the count is not 1. */
  lemma AgoTextPlural(a: Ago, date: string)
    requires a.Units?
    ensures var r := AgoText(a, date);
      |r| >= 5 && (r[|r| - 5..] == "s ago" <==> a.count != 1)
  {
    var r := AgoText(a, date);
    var head := NatToString(a.count) + " " + UnitName(a.unit);
    if a.count == 1 {
      assert r == head + " ago";
      assert r[|r| - 5..] == head[|head| - 1..] + " ago";
      assert r[|r| - 5] == head[|head| - 1];
      assert UnitName(a.unit)[|UnitName(a.unit)| - 1] != 's';
    } else {
      assert r == head + "s ago";
    }
  }

  function DevTimeAgo(now: Time, time: Time, date: Time -> string): string {
    AgoText(DevAgo(ElapsedSeconds(now, time)), date(time))
  }

  function HomeTimeAgo(now: Time, time: Time, date: Time -> string): string {
    AgoText(HomeAgo(ElapsedSeconds(now, time)), date(time))
  }

  // ------------------------------------------------------- activity feed

  /** One entry of a feed. `text` is the description (developer dashboard)
      or message (home screen). */
  datatype Activity = Activity(
    key: string,
    kind: string,
    title: string,
    text: string,
    icon: string,
    color: string,
    timestamp: Time,
    timeAgo: string)

  function ActivityTime(a: Activity): int { a.timestamp }

  /** `activities.sort((a, b) => b.timestamp - a.timestamp).slice(0, n)`. */
  function MostRecent(acts: seq<Activity>, n: nat): (r: seq<Activity>)
    ensures |r| == if |acts| < n then |acts| else n
    ensures SortedDesc(r, ActivityTime)
    ensures multiset(r) <= multiset(acts)
    ensures forall x, y :: x in multiset(acts) - multiset(r) && y in r ==> x.timestamp <= y.timestamp
    ensures |acts| <= n ==> multiset(r) == multiset(acts)
  {
    var sorted := SortDesc(acts, ActivityTime);
    TakeOutranksDrop(sorted, n, ActivityTime);
    SortedTakeSorted(sorted, n, ActivityTime);
    var r := Take(sorted, n);
    assert multiset(sorted) == multiset(r) + multiset(Drop(sorted, n));
    r
  }

  /** A message row of both feeds: a message to the user whose sender and
      project still exist (the inner joins). */
  predicate ReceivedMessage(s: Store, k: Id, userId: Id) {
    k in s.messages && s.messages[k].receiverId == userId
    && s.messages[k].senderId in s.users && s.messages[k].projectId in s.projects
  }

  function MessageCreatedAt(m: ChatMessage): int { m.createdAt }

  /** `WHERE cm.receiver_id = $1 ORDER BY cm.created_at DESC LIMIT n`. */
  function ReceivedMessageRows(s: Store, userId: Id, n: nat): (r: seq<Id>)
    ensures |r| <= n
    ensures forall k :: k in r ==> ReceivedMessage(s, k, userId)
    ensures NewestOrder(r, s.messages, MessageCreatedAt)
    ensures |r| == n || forall k :: ReceivedMessage(s, k, userId) ==> k in r
    ensures forall k :: ReceivedMessage(s, k, userId) && k !in r ==> NoNewerThan(k, r, s.messages, MessageCreatedAt)
  {
    var sel := map k | k in s.messages && ReceivedMessage(s, k, userId) :: s.messages[k];
    var r := NewestPage(sel, MessageCreatedAt, 0, Some(n));
    NewestPageWider(sel, s.messages, MessageCreatedAt, 0, Some(n));
    assert forall i :: 0 <= i < |r| ==> r[i] in sel;
    r
  }

  /** The id text of a feed entry, as `${prefix}_${id}`. */
  function EntryKey(prefix: string, id: Id): string {
    prefix + "_" + NatToString(id)
  }

  /** A shortcut on a dashboard. */
  datatype QuickAction = QuickAction(id: nat, title: string, icon: string, color: string, action: string)

  /** Four shortcuts numbered 1 to 4 in order. */
  predicate NumberedOneToFour(qs: seq<QuickAction>) {
    |qs| == 4 && forall i :: 0 <= i < 4 ==> qs[i].id == i + 1
  }
}
