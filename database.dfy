/** The marketplace's tables. `Store` is their value at one instant; `Db` is
    the database the services write to, one field per table, updated in place.
    Keys are drawn from one SERIAL sequence starting at 1. */
module Database {
  import opened Wrappers
  import opened Models
  import opened Ordering

  datatype Store = Store(
    users: map<Id, User>,
    projects: map<Id, Project>,
    proposals: map<Id, Proposal>,
    payments: map<Id, Payment>,
    reviews: map<Id, Review>,
    messages: map<Id, ChatMessage>,
    notifications: map<Id, Notification>,
    otps: map<Id, OtpRecord>,
    disputes: map<Id, Dispute>,
    nextId: Id)
  {
    /** Every key in use is positive and below the next key to hand out. */
    predicate Valid() {
      nextId >= 1
      && KeysBelow(users, nextId) && KeysBelow(projects, nextId) && KeysBelow(proposals, nextId)
      && KeysBelow(payments, nextId) && KeysBelow(reviews, nextId) && KeysBelow(messages, nextId)
      && KeysBelow(notifications, nextId) && KeysBelow(otps, nextId) && KeysBelow(disputes, nextId)
    }
  }

  /** Every key of a table is positive and below `n`. */
  predicate KeysBelow<T>(m: map<Id, T>, n: Id) {
    forall k :: k in m ==> 0 < k < n
  }

  /** The result of a service call together with the tables after it. */
  datatype Outcome<+T> = Outcome(result: Result<T>, after: Store)

  function Fail<T>(s: Store, message: string, code: int): (o: Outcome<T>)
    ensures o.result == Err(AppError(message, code)) && o.after == s
  {
    Outcome(Err(AppError(message, code)), s)
  }

  /** A notification row as the services insert them (unread). */
  function NewNotification(userId: Id, title: string, message: string, kind: string,
                           relatedId: Option<Id>, now: Time): Notification
  {
    Notification(userId, title, message, kind, relatedId, false, now)
  }

  /** Inserting a row under the next key keeps the store valid. */
  function Fresh(s: Store): (k: Id)
    requires s.Valid()
    ensures k == s.nextId && k > 0
    ensures k !in s.users && k !in s.projects && k !in s.proposals && k !in s.payments
    ensures k !in s.reviews && k !in s.messages && k !in s.notifications && k !in s.otps
    ensures k !in s.disputes
  {
    s.nextId
  }

  /** `(SELECT developer_id FROM proposals WHERE id = accepted_proposal_id)`:
      NULL when no proposal is accepted or the accepted one is gone. */
  function AcceptedDeveloper(s: Store, p: Project): (d: Option<Id>)
    ensures d.Some? <==> p.acceptedProposalId.Some? && p.acceptedProposalId.value in s.proposals
    ensures d.Some? ==> d.value == s.proposals[p.acceptedProposalId.value].developerId
  {
    if p.acceptedProposalId.Some? && p.acceptedProposalId.value in s.proposals
    then Some(s.proposals[p.acceptedProposalId.value].developerId) else None
  }

  /** The other side of a project for `userId`, as reviews and chat pick it:
      the developer when `userId` is the project's student, the student for
      anybody else. */
  function Counterpart(p: Project, developer: Option<Id>, userId: Id): (r: Option<Id>)
    ensures userId == p.studentId ==> r == developer
    ensures userId != p.studentId ==> r == Some(p.studentId)
  {
    if userId == p.studentId then developer else Some(p.studentId)
  }

  /** `SUM(f(row))` over a table, in key order. */
  function SumOf<T>(m: map<Id, T>, f: T -> real): real
    decreases |m|
  {
    if m == map[] then 0.0
    else
      var k := Least(m.Keys);
      f(m[k]) + SumOf(m - {k}, f)
  }

  /** The sum does not depend on the order rows are added up in: any one row
      can be taken out first. */
  lemma {:induction false} SumOfRemove<T>(m: map<Id, T>, f: T -> real, j: Id)
    requires j in m
    ensures SumOf(m, f) == f(m[j]) + SumOf(m - {j}, f)
    decreases |m|
  {
    var k := Least(m.Keys);
    assert (m - {k}).Keys == m.Keys - {k};
    if k != j {
      assert (m - {j}).Keys == m.Keys - {j};
      SumOfRemove(m - {k}, f, j);
      SumOfRemove(m - {j}, f, k);
      assert m - {k} - {j} == m - {j} - {k};
    }
  }

  /** Rows whose value of `f` is zero add nothing to the sum. */
  lemma {:induction false} SumOfZeroRows<T>(m: map<Id, T>, f: T -> real, j: Id)
    requires j in m && f(m[j]) == 0.0
    ensures SumOf(m, f) == SumOf(m - {j}, f)
  {
    SumOfRemove(m, f, j);
  }

  /** `c` added up `n` times. */
  function Times(c: real, n: nat): real {
    if n == 0 then 0.0 else Times(c, n - 1) + c
  }

  lemma {:induction false} TimesIsProduct(c: real, n: nat)
    ensures Times(c, n) == c * n as real
  {
    if n > 0 {
      TimesIsProduct(c, n - 1);
      assert c * n as real == c * (n - 1) as real + c;
    }
  }

  /** A sum of `n` values, each between `lo` and `hi`, lies between `n` times
      `lo` and `n` times `hi`. */
  lemma {:induction false} SumOfBounds<T>(m: map<Id, T>, f: T -> real, lo: real, hi: real)
    requires forall k :: k in m ==> lo <= f(m[k]) <= hi
    ensures Times(lo, |m|) <= SumOf(m, f) <= Times(hi, |m|)
    decreases |m|
  {
    if m != map[] {
      var k := Least(m.Keys);
      var rest := m - {k};
      assert rest.Keys == m.Keys - {k};
      assert |rest| == |m| - 1;
      SumOfBounds(rest, f, lo, hi);
    }
  }

  class Db {
    var users: map<Id, User>
    var projects: map<Id, Project>
    var proposals: map<Id, Proposal>
    var payments: map<Id, Payment>
    var reviews: map<Id, Review>
    var messages: map<Id, ChatMessage>
    var notifications: map<Id, Notification>
    var otps: map<Id, OtpRecord>
    var disputes: map<Id, Dispute>
    var nextId: Id

    function State(): Store
      reads this
    {
      Store(users, projects, proposals, payments, reviews, messages, notifications, otps,
            disputes, nextId)
    }

    predicate Valid()
      reads this
    {
      State().Valid()
    }

    constructor ()
      ensures Valid()
      ensures State() == Store(map[], map[], map[], map[], map[], map[], map[], map[], map[], 1)
    {
      users, projects, proposals, payments := map[], map[], map[], map[];
      reviews, messages, notifications, otps, disputes := map[], map[], map[], map[], map[];
      nextId := 1;
    }

    /** `nextval` of the key sequence. */
    method NewId() returns (id: Id)
      requires Valid()
      modifies this`nextId
      ensures id == old(nextId) && nextId == id + 1 && id > 0
      ensures Valid()
    {
      id := nextId;
      nextId := nextId + 1;
    }

    /** `INSERT INTO notifications ... RETURNING id`. */
    method Notify(n: Notification)
      requires Valid()
      modifies this`notifications, this`nextId
      ensures notifications == old(notifications)[old(nextId) := n]
      ensures nextId == old(nextId) + 1
      ensures Valid()
    {
      var id := NewId();
      notifications := notifications[id := n];
    }
  }
}
