/** Payments (src/services/paymentService.ts): the student of a project opens
    a gateway order for an advance, a full or a milestone payment on the
    accepted proposal's price; the gateway's signed callback completes it; a
    developer's earnings are sums over their payments. */
module PaymentService {
  import opened Wrappers
  import opened Models
  import opened Text
  import opened Ordering
  import opened Database

  /** COMMISSION_PERCENTAGE when the environment does not set it. */
  const DefaultCommissionPercentage: real := 10.0

  /** The body of a create-payment request. */
  datatype PaymentInput = PaymentInput(
    projectId: Id,
    paymentMethod: string,
    paymentType: PaymentType,
    milestonePercentage: Option<int>)

  /** The order the service asks the gateway to create. */
  datatype GatewayOrder = GatewayOrder(
    amountPaise: real,
    currency: string,
    receipt: string,
    projectIdNote: string,
    studentIdNote: string,
    developerIdNote: string,
    paymentTypeNote: string,
    milestonePercentageNote: string)

  datatype Split = Split(commission: real, net: real)

  datatype Earnings = Earnings(
    totalEarnings: Option<real>,
    pendingEarnings: Option<real>,
    totalCommission: Option<real>)

  /** What the student is charged, on the accepted proposal's price. `None`
      stands for JavaScript's NaN: a milestone payment whose percentage is
      missing divides `undefined` by 100. */
  function ChargeAmount(price: real, paymentType: PaymentType, milestonePercentage: Option<int>)
    : (r: Option<real>)
    ensures r.None? <==> paymentType == Milestone && milestonePercentage.None?
    ensures paymentType == Full ==> r == Some(price)
    ensures paymentType == Advance ==> r == Some(price / 2.0)
    ensures paymentType == Milestone && milestonePercentage.Some? ==>
              r == Some(price * (milestonePercentage.value as real / 100.0))
    ensures (paymentType == Milestone && milestonePercentage.Some? && 0 <= milestonePercentage.value <= 100
             && price >= 0.0) ==> 0.0 <= r.value <= price
  {
    match paymentType
    case Advance => Some(price * 0.5)
    case Full => Some(price)
    case Milestone =>
      if milestonePercentage.Some? then
        assert 0 <= milestonePercentage.value <= 100 && price >= 0.0 ==>
                 0.0 <= price * (milestonePercentage.value as real / 100.0) <= price by {
          if 0 <= milestonePercentage.value <= 100 && price >= 0.0 {
            ShareOfPrice(price, milestonePercentage.value as real / 100.0);
          }
        }
        Some(price * (milestonePercentage.value as real / 100.0))
      else None
  }

  /** A share between none and all of a non-negative price. */
  lemma ShareOfPrice(price: real, share: real)
    requires price >= 0.0 && 0.0 <= share <= 1.0
    ensures 0.0 <= price * share <= price
  {
    assert price * share <= price * 1.0;
  }

  /** The platform's commission and the developer's net share of an amount. */
  function SplitAmount(amount: real, commissionPercentage: real): (r: Split)
    ensures r.net + r.commission == amount
    ensures r.commission * 100.0 == amount * commissionPercentage
    ensures amount >= 0.0 && 0.0 <= commissionPercentage <= 100.0 ==>
              0.0 <= r.commission <= amount && 0.0 <= r.net <= amount
  {
    var commission := amount * (commissionPercentage / 100.0);
    Split(commission, amount - commission)
  }

  /** The gateway counts in paise. */
  function Paise(amount: real): (p: real)
    ensures p / 100.0 == amount
  {
    amount * 100.0
  }

  function PaymentTypeNote(input: PaymentInput): string {
    PaymentTypeName(input.paymentType)
  }

  function BuildOrder(input: PaymentInput, studentId: Id, developerId: Id, amount: real, now: Time)
    : (g: GatewayOrder)
    ensures g.amountPaise / 100.0 == amount && g.currency == "INR"
    ensures g.milestonePercentageNote == (if input.milestonePercentage.Some?
                                          then IntToString(input.milestonePercentage.value) else "0")
  {
    GatewayOrder(Paise(amount), "INR",
                 "projexhub_" + NatToString(input.projectId) + "_" + IntToString(now),
                 NatToString(input.projectId), NatToString(studentId), NatToString(developerId),
                 PaymentTypeNote(input),
                 if input.milestonePercentage.Some? then IntToString(input.milestonePercentage.value) else "0")
  }

  /** `milestonePercentage || 0`: a missing or zero percentage is stored as 0. */
  function StoredPercentage(p: Option<int>): (r: int)
    ensures p.Some? && p.value != 0 ==> r == p.value
    ensures p.None? ==> r == 0
  {
    if p.Some? && p.value != 0 then p.value else 0
  }

  /** The accepted proposal the project's LEFT JOIN finds, if any. */
  function AcceptedBid(s: Store, project: Project): (r: Option<Proposal>)
    ensures r.Some? <==> project.acceptedProposalId.Some? && project.acceptedProposalId.value in s.proposals
  {
    if project.acceptedProposalId.Some? && project.acceptedProposalId.value in s.proposals
    then Some(s.proposals[project.acceptedProposalId.value]) else None
  }

  /** createPaymentOrder. `gatewayConfigured` says whether the gateway's keys
      are set; `gatewayReply` is the order id the gateway answers with, or the
      error it raises. */
  function CreatePaymentOrderOutcome(s: Store, input: PaymentInput, studentId: Id,
                                     commissionPercentage: real, gatewayConfigured: bool,
                                     gatewayReply: Result<string>, now: Time)
    : (o: Outcome<(Id, Payment, GatewayOrder)>)
    requires s.Valid()
    ensures o.after.Valid()
  {
    if !gatewayConfigured then Fail(s, "Payment gateway not configured. Please contact support.", 503)
    else if input.projectId !in s.projects then Fail(s, "Project not found", 404)
    else
      var project := s.projects[input.projectId];
      if project.studentId != studentId then Fail(s, "Unauthorized to make payment for this project", 403)
      else
        var bid := AcceptedBid(s, project);
        if bid.None? then
          Outcome(Err(Fault("Cannot read properties of null (reading 'toString')")), s)
        else
          var amount := ChargeAmount(bid.value.price, input.paymentType, input.milestonePercentage);
          if amount.None? then Outcome(Err(Fault("amount is NaN")), s)
          else if gatewayReply.Err? then Outcome(Err(gatewayReply.error), s)
          else
            var split := SplitAmount(amount.value, commissionPercentage);
            var order := BuildOrder(input, studentId, bid.value.developerId, amount.value, now);
            var id := Fresh(s);
            var payment := Payment(input.projectId, studentId, bid.value.developerId, amount.value,
                                   split.commission, split.net, input.paymentMethod, input.paymentType,
                                   StoredPercentage(input.milestonePercentage), Some(gatewayReply.value),
                                   None, None, PaymentStatus.Pending, now);
            Outcome(Ok((id, payment, order)),
                    s.(payments := s.payments[id := payment], nextId := id + 1))
  }

  /** The guards of createPaymentOrder in order (503, 404, 403); a failure
      changes nothing. */
  lemma CreatePaymentOrderGuards(s: Store, input: PaymentInput, studentId: Id, c: real,
                                 configured: bool, reply: Result<string>, now: Time)
    requires s.Valid()
    ensures var o := CreatePaymentOrderOutcome(s, input, studentId, c, configured, reply, now);
      && (!configured ==> o.result.Err? && o.result.error.statusCode == 503)
      && (configured && input.projectId !in s.projects ==> o.result.Err? && o.result.error.statusCode == 404)
      && ((configured && input.projectId in s.projects && s.projects[input.projectId].studentId != studentId)
            ==> o.result.Err? && o.result.error.statusCode == 403)
      && ((configured && input.projectId in s.projects && s.projects[input.projectId].studentId == studentId
           && AcceptedBid(s, s.projects[input.projectId]).None?)
            ==> o.result == Err(Fault("Cannot read properties of null (reading 'toString')")))
      && (o.result.Err? ==> o.after == s)
  {
  }

  /** What a successful createPaymentOrder stores: one new pending row whose
      net and commission add up to the amount, which is never compared with
      earlier payments. */
  lemma CreatePaymentOrderEffect(s: Store, input: PaymentInput, studentId: Id, c: real,
                                 configured: bool, reply: Result<string>, now: Time)
    requires s.Valid()
    requires CreatePaymentOrderOutcome(s, input, studentId, c, configured, reply, now).result.Ok?
    ensures var o := CreatePaymentOrderOutcome(s, input, studentId, c, configured, reply, now);
      var (id, p, order) := o.result.value;
      && o.after == s.(payments := s.payments[id := p], nextId := s.nextId + 1)
      && id !in s.payments
      && p.status == PaymentStatus.Pending && p.projectId == input.projectId
      && p.netAmount + p.commissionAmount == p.amount
      && order.amountPaise == p.amount * 100.0
      && p.razorpayOrderId == Some(reply.value)
  {
  }

  /** The stored row of a successful createPaymentOrder, field by field: the
      charge on the accepted proposal's price, its split at the commission
      rate, the parties, and the percentage as stored; the gateway order is
      built from the same amount. */
  lemma CreatePaymentOrderRow(s: Store, input: PaymentInput, studentId: Id, c: real,
                              configured: bool, reply: Result<string>, now: Time)
    requires s.Valid()
    requires CreatePaymentOrderOutcome(s, input, studentId, c, configured, reply, now).result.Ok?
    ensures input.projectId in s.projects && AcceptedBid(s, s.projects[input.projectId]).Some?
    ensures var o := CreatePaymentOrderOutcome(s, input, studentId, c, configured, reply, now);
      var (id, p, order) := o.result.value;
      var bid := AcceptedBid(s, s.projects[input.projectId]).value;
      && ChargeAmount(bid.price, input.paymentType, input.milestonePercentage) == Some(p.amount)
      && p.commissionAmount == SplitAmount(p.amount, c).commission
      && p.netAmount == SplitAmount(p.amount, c).net
      && p.studentId == studentId && p.developerId == bid.developerId
      && p.paymentType == input.paymentType && p.paymentMethod == input.paymentMethod
      && p.milestonePercentage == StoredPercentage(input.milestonePercentage)
      && p.createdAt == now
      && order == BuildOrder(input, studentId, bid.developerId, p.amount, now)
  {
  }

  /** Two orders for the same milestone are two pending rows: nothing checks
      whether the milestone was already ordered or paid. */
  lemma RepeatedOrdersAccumulate(s: Store, input: PaymentInput, studentId: Id, c: real,
                                 reply: Result<string>, now: Time)
    requires s.Valid()
    requires CreatePaymentOrderOutcome(s, input, studentId, c, true, reply, now).result.Ok?
    ensures var t := CreatePaymentOrderOutcome(s, input, studentId, c, true, reply, now).after;
      var u := CreatePaymentOrderOutcome(t, input, studentId, c, true, reply, now);
      u.result.Ok? && |u.after.payments| == |s.payments| + 2
  {
    var t := CreatePaymentOrderOutcome(s, input, studentId, c, true, reply, now).after;
    assert s.nextId !in s.payments;
    assert t.nextId !in t.payments;
  }

  /** The UPDATE of verifyPayment: every row of the order is completed with
      the gateway's payment id and signature, whatever its status was. */
  function CompleteOrder(m: map<Id, Payment>, orderId: string, paymentId: string, signature: string)
    : (r: map<Id, Payment>)
    ensures r.Keys == m.Keys
    ensures forall k :: k in m && m[k].razorpayOrderId == Some(orderId) ==>
              r[k] == m[k].(status := PaymentStatus.Completed, razorpayPaymentId := Some(paymentId),
                            razorpaySignature := Some(signature))
    ensures forall k :: k in m && m[k].razorpayOrderId != Some(orderId) ==> r[k] == m[k]
  {
    map k | k in m ::
      if m[k].razorpayOrderId == Some(orderId)
      then m[k].(status := PaymentStatus.Completed, razorpayPaymentId := Some(paymentId),
                 razorpaySignature := Some(signature))
      else m[k]
  }

  lemma CompleteOrderIdempotent(m: map<Id, Payment>, orderId: string, paymentId: string, signature: string)
    ensures CompleteOrder(CompleteOrder(m, orderId, paymentId, signature), orderId, paymentId, signature)
            == CompleteOrder(m, orderId, paymentId, signature)
  {
  }

  /** A milestone payment sets its project's progress to its percentage; an
      UPDATE of a project that does not exist changes nothing. */
  function RecordMilestone(projects: map<Id, Project>, payment: Payment): (r: map<Id, Project>)
    ensures r.Keys == projects.Keys
    ensures forall k :: k in projects && (k != payment.projectId || payment.paymentType != Milestone) ==>
              r[k] == projects[k]
    ensures payment.paymentType == Milestone && payment.projectId in projects ==>
              r[payment.projectId] == projects[payment.projectId].(progressPercentage := payment.milestonePercentage)
  {
    if payment.paymentType == Milestone && payment.projectId in projects
    then projects[payment.projectId := projects[payment.projectId].(progressPercentage := payment.milestonePercentage)]
    else projects
  }

  function PaymentNotification(id: Id, payment: Payment, formatAmount: real -> string, now: Time): Notification {
    NewNotification(payment.developerId, "Payment Received",
                    "You received a payment of \U{20B9}" + formatAmount(payment.netAmount),
                    "payment", Some(id), now)
  }

  /** `rows[0]` of the UPDATE's RETURNING: the first row of the order. */
  function FirstOfOrder(m: map<Id, Payment>, orderId: string): (r: Option<Id>)
    ensures r.Some? ==> r.value in m && m[r.value].razorpayOrderId == Some(orderId)
    ensures r.None? <==> forall k :: k in m ==> m[k].razorpayOrderId != Some(orderId)
  {
    FirstWhere(m, (p: Payment) => p.razorpayOrderId == Some(orderId))
  }

  lemma NoRowsNoChange(m: map<Id, Payment>, orderId: string, paymentId: string, signature: string)
    requires FirstOfOrder(CompleteOrder(m, orderId, paymentId, signature), orderId).None?
    ensures CompleteOrder(m, orderId, paymentId, signature) == m
  {
    var c := CompleteOrder(m, orderId, paymentId, signature);
    forall k | k in m ensures c[k] == m[k] {
      assert c[k].razorpayOrderId != Some(orderId);
    }
  }

  /** verifyPayment. `sign` is the HMAC-SHA256 of its argument under the
      gateway's key secret, in hex; `formatAmount` renders a number as the
      notification text does. */
  function VerifyPaymentOutcome(s: Store, orderId: string, paymentId: string, signature: string,
                                sign: string -> string, formatAmount: real -> string, now: Time)
    : (o: Outcome<(Id, Payment)>)
    requires s.Valid()
    ensures o.after.Valid()
  {
    if sign(orderId + "|" + paymentId) != signature then Fail(s, "Invalid payment signature", 400)
    else
      var payments := CompleteOrder(s.payments, orderId, paymentId, signature);
      var first := FirstOfOrder(payments, orderId);
      if first.None? then Fail(s, "Payment not found", 404)
      else
        var id := first.value;
        var payment := payments[id];
        var nid := Fresh(s);
        var n := PaymentNotification(id, payment, formatAmount, now);
        Outcome(Ok((id, payment)),
                s.(payments := payments, projects := RecordMilestone(s.projects, payment),
                   notifications := s.notifications[nid := n], nextId := nid + 1))
  }

  /** A signature that does not match changes nothing; a matching one
      succeeds exactly when some row belongs to the order (404 otherwise). */
  lemma VerifyPaymentGuards(s: Store, orderId: string, paymentId: string, signature: string,
                            sign: string -> string, formatAmount: real -> string, now: Time)
    requires s.Valid()
    ensures var o := VerifyPaymentOutcome(s, orderId, paymentId, signature, sign, formatAmount, now);
      && (sign(orderId + "|" + paymentId) != signature ==>
            o.result == Err(AppError("Invalid payment signature", 400)) && o.after == s)
      && (sign(orderId + "|" + paymentId) == signature ==>
            (o.result.Ok? <==> exists k :: k in s.payments && s.payments[k].razorpayOrderId == Some(orderId)))
      && (o.result.Err? && sign(orderId + "|" + paymentId) == signature ==>
            o.result == Err(AppError("Payment not found", 404)) && o.after == s)
  {
    var payments := CompleteOrder(s.payments, orderId, paymentId, signature);
    if sign(orderId + "|" + paymentId) == signature {
      if exists k :: k in s.payments && s.payments[k].razorpayOrderId == Some(orderId) {
        var k :| k in s.payments && s.payments[k].razorpayOrderId == Some(orderId);
        assert payments[k].razorpayOrderId == Some(orderId);
      }
    }
  }

  /** A successful verifyPayment completes every row of the order, returns a
      completed row, and a milestone payment sets its project's progress to
      its percentage. */
  lemma VerifyPaymentEffect(s: Store, orderId: string, paymentId: string, signature: string,
                            sign: string -> string, formatAmount: real -> string, now: Time)
    requires s.Valid()
    requires VerifyPaymentOutcome(s, orderId, paymentId, signature, sign, formatAmount, now).result.Ok?
    ensures var o := VerifyPaymentOutcome(s, orderId, paymentId, signature, sign, formatAmount, now);
      var p := o.result.value.1;
      && o.after.payments == CompleteOrder(s.payments, orderId, paymentId, signature)
      && p.status == PaymentStatus.Completed
      && o.after.projects == RecordMilestone(s.projects, p)
      && o.after.projects.Keys == s.projects.Keys
      && (p.paymentType == Milestone && p.projectId in s.projects ==>
            o.after.projects[p.projectId].progressPercentage == p.milestonePercentage)
  {
  }

  /** A successful verifyPayment notifies the developer of the returned row
      under a fresh key, and touches no table besides payments, projects and
      notifications. */
  lemma VerifyPaymentNotifies(s: Store, orderId: string, paymentId: string, signature: string,
                              sign: string -> string, formatAmount: real -> string, now: Time)
    requires s.Valid()
    requires VerifyPaymentOutcome(s, orderId, paymentId, signature, sign, formatAmount, now).result.Ok?
    ensures var o := VerifyPaymentOutcome(s, orderId, paymentId, signature, sign, formatAmount, now);
      var (id, p) := o.result.value;
      && s.nextId !in s.notifications
      && o.after.notifications == s.notifications[s.nextId := PaymentNotification(id, p, formatAmount, now)]
      && o.after.notifications[s.nextId].userId == p.developerId
      && o.after.notifications[s.nextId].relatedId == Some(id)
      && o.after.users == s.users && o.after.proposals == s.proposals && o.after.reviews == s.reviews
      && o.after.messages == s.messages && o.after.otps == s.otps && o.after.disputes == s.disputes
  {
  }

  /** The rows of one developer. */
  function DeveloperPayments(m: map<Id, Payment>, developerId: Id): (r: map<Id, Payment>)
    ensures forall k :: k in r <==> k in m && m[k].developerId == developerId
    ensures forall k :: k in r ==> r[k] == m[k]
  {
    map k | k in m && m[k].developerId == developerId :: m[k]
  }

  function CompletedNet(p: Payment): real {
    if p.status == PaymentStatus.Completed then p.netAmount else 0.0
  }

  function PendingNet(p: Payment): real {
    if p.status == PaymentStatus.Pending then p.netAmount else 0.0
  }

  function CompletedCommission(p: Payment): real {
    if p.status == PaymentStatus.Completed then p.commissionAmount else 0.0
  }

  /** getEarnings: SUM over the developer's rows, which is NULL when the
      developer has none. */
  function EarningsOf(m: map<Id, Payment>, developerId: Id): (e: Earnings)
    ensures e.totalEarnings.None? <==> DeveloperPayments(m, developerId) == map[]
    ensures e.pendingEarnings.None? <==> e.totalEarnings.None?
    ensures e.totalCommission.None? <==> e.totalEarnings.None?
  {
    var rows := DeveloperPayments(m, developerId);
    if rows == map[] then Earnings(None, None, None)
    else Earnings(Some(SumOf(rows, CompletedNet)), Some(SumOf(rows, PendingNet)),
                  Some(SumOf(rows, CompletedCommission)))
  }

  /** A failed or refunded row adds nothing to any of the three sums. */
  lemma InactivePaymentsEarnNothing(m: map<Id, Payment>, developerId: Id, k: Id)
    requires k in m && m[k].developerId == developerId
    requires m[k].status == Failed || m[k].status == Refunded
    requires exists j :: j in m && j != k && m[j].developerId == developerId
    ensures EarningsOf(m, developerId) == EarningsOf(m - {k}, developerId)
  {
    var rows := DeveloperPayments(m, developerId);
    var j :| j in m && j != k && m[j].developerId == developerId;
    assert j in DeveloperPayments(m - {k}, developerId);
    assert DeveloperPayments(m - {k}, developerId) == rows - {k};
    SumOfZeroRows(rows, CompletedNet, k);
    SumOfZeroRows(rows, PendingNet, k);
    SumOfZeroRows(rows, CompletedCommission, k);
  }

  /** Completing a pending payment moves its net amount from the pending sum
      to the total and adds its commission to the commission sum. */
  lemma CompletingMovesEarnings(m: map<Id, Payment>, developerId: Id, k: Id)
    requires k in m && m[k].developerId == developerId && m[k].status == PaymentStatus.Pending
    ensures var before := EarningsOf(m, developerId);
      var after := EarningsOf(m[k := m[k].(status := PaymentStatus.Completed)], developerId);
      && after.totalEarnings.value == before.totalEarnings.value + m[k].netAmount
      && after.pendingEarnings.value == before.pendingEarnings.value - m[k].netAmount
      && after.totalCommission.value == before.totalCommission.value + m[k].commissionAmount
  {
    var m2 := m[k := m[k].(status := PaymentStatus.Completed)];
    var rows := DeveloperPayments(m, developerId);
    var rows2 := DeveloperPayments(m2, developerId);
    assert k in rows && k in rows2;
    assert rows2 - {k} == rows - {k};
    SumOfRemove(rows, CompletedNet, k);
    SumOfRemove(rows2, CompletedNet, k);
    SumOfRemove(rows, PendingNet, k);
    SumOfRemove(rows2, PendingNet, k);
    SumOfRemove(rows, CompletedCommission, k);
    SumOfRemove(rows2, CompletedCommission, k);
  }

  class PaymentServiceImpl {
    const db: Db
    /** Whether RAZORPAY_KEY_ID and RAZORPAY_KEY_SECRET are both set. */
    const gatewayConfigured: bool
    const commissionPercentage: real

    constructor (db: Db, gatewayConfigured: bool, commissionPercentage: real)
      ensures this.db == db && this.gatewayConfigured == gatewayConfigured
      ensures this.commissionPercentage == commissionPercentage
    {
      this.db := db;
      this.gatewayConfigured := gatewayConfigured;
      this.commissionPercentage := commissionPercentage;
    }

    method CreatePaymentOrder(input: PaymentInput, studentId: Id, gatewayReply: Result<string>, now: Time)
      returns (r: Result<(Id, Payment, GatewayOrder)>)
      requires db.Valid()
      modifies db
      ensures var o := CreatePaymentOrderOutcome(old(db.State()), input, studentId, commissionPercentage,
                                                 gatewayConfigured, gatewayReply, now);
        r == o.result && db.State() == o.after
      ensures db.Valid()
    {
      if !gatewayConfigured {
        return Err(AppError("Payment gateway not configured. Please contact support.", 503));
      }
      if input.projectId !in db.projects {
        return Err(AppError("Project not found", 404));
      }
      var project := db.projects[input.projectId];
      if project.studentId != studentId {
        return Err(AppError("Unauthorized to make payment for this project", 403));
      }
      var bid := AcceptedBid(db.State(), project);
      if bid.None? {
        return Err(Fault("Cannot read properties of null (reading 'toString')"));
      }
      var amount := ChargeAmount(bid.value.price, input.paymentType, input.milestonePercentage);
      if amount.None? {
        return Err(Fault("amount is NaN"));
      }
      var split := SplitAmount(amount.value, commissionPercentage);
      var order := BuildOrder(input, studentId, bid.value.developerId, amount.value, now);
      if gatewayReply.Err? {
        return Err(gatewayReply.error);
      }
      var id := db.NewId();
      var payment := Payment(input.projectId, studentId, bid.value.developerId, amount.value,
                             split.commission, split.net, input.paymentMethod, input.paymentType,
                             StoredPercentage(input.milestonePercentage), Some(gatewayReply.value),
                             None, None, PaymentStatus.Pending, now);
      db.payments := db.payments[id := payment];
      r := Ok((id, payment, order));
    }

    method VerifyPayment(orderId: string, paymentId: string, signature: string,
                         sign: string -> string, formatAmount: real -> string, now: Time)
      returns (r: Result<(Id, Payment)>)
      requires db.Valid()
      modifies db
      ensures var o := VerifyPaymentOutcome(old(db.State()), orderId, paymentId, signature, sign,
                                            formatAmount, now);
        r == o.result && db.State() == o.after
      ensures db.Valid()
    {
      ghost var s0 := db.State();
      if sign(orderId + "|" + paymentId) != signature {
        return Err(AppError("Invalid payment signature", 400));
      }
      db.payments := CompleteOrder(db.payments, orderId, paymentId, signature);
      var first := FirstOfOrder(db.payments, orderId);
      if first.None? {
        NoRowsNoChange(s0.payments, orderId, paymentId, signature);
        return Err(AppError("Payment not found", 404));
      }
      var id := first.value;
      var payment := db.payments[id];
      db.projects := RecordMilestone(db.projects, payment);
      assert db.State() == s0.(payments := db.payments, projects := db.projects);
      assert db.Valid() by {
        assert KeysBelow(db.payments, s0.nextId) by { assert db.payments.Keys == s0.payments.Keys; }
        assert KeysBelow(db.projects, s0.nextId) by { assert db.projects.Keys == s0.projects.Keys; }
      }
      var nid := db.NewId();
      db.notifications := db.notifications[nid := PaymentNotification(id, payment, formatAmount, now)];
      r := Ok((id, payment));
      assert db.State() == s0.(payments := CompleteOrder(s0.payments, orderId, paymentId, signature),
                               projects := RecordMilestone(s0.projects, payment),
                               notifications := s0.notifications[nid := PaymentNotification(id, payment, formatAmount, now)],
                               nextId := nid + 1);
    }

    method GetEarnings(developerId: Id) returns (e: Earnings)
      requires db.Valid()
      ensures e == EarningsOf(db.payments, developerId)
    {
      e := EarningsOf(db.payments, developerId);
    }
  }
}
