/** How one step may change one order's rows, whatever the step: the base of every claim about time. */
module BillingHistory {
  import opened Wrappers
  import opened BillingModel
  import opened BillingSteps
  import opened BillingInvariant
  import opened BillingKeepsClose
  import opened BillingKeepsFulfil
  import opened BillingKeepsCheckout
  import opened BillingKeepsTokens
  import opened BillingRuns

  /** Money and slots never change, a decided status never changes, a return is never undone. */
  predicate Evolves(t: Transaction, later: Transaction) {
    && later.parent == t.parent && later.subscription == t.subscription
    && later.amount == t.amount && later.slots == t.slots
    && later.metadata.depositApplied == t.metadata.depositApplied
    && (t.status != TxPending ==> later.status == t.status)
    && (t.metadata.depositReturned ==> later.metadata.depositReturned)
  }

  /** A subscription is activated or canceled once, expires once, and keeps its price and its window. */
  predicate SubEvolves(s: Subscription, later: Subscription) {
    && later.parent == s.parent && later.price == s.price && later.basePrice == s.basePrice
    && match s.status
       case SubDraft => true
       case SubPending => later.status in {SubPending, SubActive, SubCanceled}
       case SubActive => later.status in {SubActive, SubExpired} && later.window == s.window
       case SubExpired => later == s
       case SubCanceled => later == s
  }

  /** While the refund stays flagged, a claim is only ever replaced by a later one. */
  predicate ClaimHeld(t: Transaction, later: Transaction) {
    t.requiresCompensation && later.requiresCompensation && t.claimedUntil.Some? ==>
      later.claimedUntil.Some? && later.claimedUntil.value >= t.claimedUntil.value
  }

  /** An expired subscription and the sessions charged to it are frozen. */
  ghost predicate Frozen(db: Db, after: Db, i: nat)
    requires i in db.subs && i in after.subs
  {
    db.subs[i].status == SubExpired ==>
      after.subs[i] == db.subs[i] && DebitedOf(after.marks, i) == DebitedOf(db.marks, i)
  }

  ghost predicate OrderStep(db: Db, after: Db, i: nat) {
    && i in db.txs && i in db.subs && i in after.txs && i in after.subs
    && Evolves(db.txs[i], after.txs[i]) && ClaimHeld(db.txs[i], after.txs[i])
    && SubEvolves(db.subs[i], after.subs[i]) && Frozen(db, after, i)
  }

  ghost predicate Known(db: Db, i: nat) {
    i in db.txs && i in db.subs && i < db.next
  }

  lemma CloseStep(db: Db, j: nat, t: Transaction, i: nat)
    requires Orders(db) && Ledger(db) && Closes(db, j, t) && Known(db, i)
    ensures OrderStep(db, ReleaseOrderResources(SetTx(db, j, t), j), i)
  {
    assert StatusesFit(db.txs[j], db.subs[j]) by {
      PendingTogether(db, j);
    }
    ReleaseCloses(db, j, t);
  }

  lemma FulfilStep(db: Db, j: nat, t: Transaction, window: Window, i: nat)
    requires Fulfils(db, j, t) && StatusesFit(db.txs[j], db.subs[j]) && Known(db, i)
    ensures OrderStep(db, Fulfilled(db, j, t, window), i)
  {
  }

  lemma ReflagStep(db: Db, j: nat, t: Transaction, i: nat)
    requires Reflags(db, j, t) && Known(db, i) && ClaimHeld(db.txs[j], t)
    ensures OrderStep(db, SetTx(db, j, t), i)
  {
  }

  lemma SuccessStep(db: Db, w: World, j: nat, info: PaymentInfo, now: Moment, i: nat)
    requires Orders(db) && Ledger(db) && WorldOk(w) && Known(db, i)
    ensures OrderStep(db, ApplySuccess(db, w, j, info, now).0, i)
  {
    var o := SuccessOutcome(db, w, j, info, now);
    match o
    case Ignored =>
    case FlaggedLate(t) =>
      LateKeepsClaim(db, w, j, info, now);
      ReflagStep(db, j, t, i);
    case ClosedAs(t) => CloseStep(db, j, t, i);
    case FulfilledAs(t, window) =>
      PendingTogether(db, j);
      FulfilStep(db, j, t, window, i);
  }

  lemma LateKeepsClaim(db: Db, w: World, j: nat, info: PaymentInfo, now: Moment)
    requires WorldOk(w) && j in db.txs && db.txs[j].status != TxPending
    ensures var after := ApplySuccess(db, w, j, info, now).0;
            j in after.txs && after.txs[j].claimedUntil == db.txs[j].claimedUntil
  {
  }

  lemma CancellationStep(db: Db, j: nat, paymentId: string, i: nat)
    requires Orders(db) && Ledger(db) && Known(db, i)
    ensures OrderStep(db, ApplyCancellation(db, j, paymentId), i)
  {
    if j in db.txs && db.txs[j].status == TxPending {
      PendingTogether(db, j);
      CloseStep(db, j, db.txs[j].(status := TxCanceled, externalId := Some(paymentId)), i);
    }
  }

  lemma SweepStaleStep(db: Db, j: nat, i: nat)
    requires Orders(db) && Ledger(db) && Known(db, i)
    ensures OrderStep(db, SweepStaleOne(db, j), i)
  {
    if j in db.txs && db.txs[j].status == TxPending {
      PendingTogether(db, j);
      var t := db.txs[j];
      CloseStep(db, j, t.(status := TxCanceled, metadata := t.metadata.(ttlExpired := true)), i);
    }
  }

  lemma ExpireStep(db: Db, j: nat, moment: Moment, i: nat)
    requires Ledger(db) && Tokens(db) && Known(db, i)
    ensures OrderStep(db, ExpireOne(db, j, moment), i)
  {
    if Expirable(db, j, moment) {
      ExpireIsExpired(db, j, moment);
    }
  }

  lemma InsertStep(db: Db, parent: int, plan: Plan, slots: seq<int>, enrs: map<SeatKey, Enrollment>, applied: int, now: Moment, i: nat)
    requires Known(db, i) && (applied > 0 ==> parent in db.deposits)
    ensures OrderStep(db, InsertOrder(db, parent, plan, slots, enrs, applied, now), i)
  {
  }

  lemma CheckoutStep(db: Db, w: World, req: CheckoutRequest, now: Moment, i: nat)
    requires WorldOk(w) && Checkout(db, w, req, now).Success? && Known(db, i)
    ensures OrderStep(db, Checkout(db, w, req, now).value.db, i)
  {
    var plan := w.plans[req.plan];
    var slots := Normalize(req.slotIds);
    var enrs := BookSlots(db.enrs, w, db.next, req.student, slots, now).value;
    var applied := DepositShare(db.deposits, req.parent, plan.price, req.useDeposit);
    InsertStep(db, req.parent, plan, slots, enrs, applied, now, i);
    var placed := InsertOrder(db, req.parent, plan, slots, enrs, applied, now);
    if plan.price - applied == 0 {
      PrepaidTouchesOnlyItsOrder(placed, w, db.next, i);
    }
  }

  lemma PrepaidTouchesOnlyItsOrder(db: Db, w: World, j: nat, i: nat)
    requires j in db.txs && WorldOk(w) && i != j && i in db.txs && i in db.subs
    requires db.txs[j].subscription == Some(j) && FulfillPrepaid(db, w, j).Success?
    ensures var after := FulfillPrepaid(db, w, j).value;
            && i in after.txs && i in after.subs
            && after.txs[i] == db.txs[i] && after.subs[i] == db.subs[i] && after.marks == db.marks
  {
  }

  lemma RemarkStep(db: Db, m: nat, mark: Attendance, delta: int, i: nat)
    requires Remarks(db, m, mark, delta) && Known(db, i)
    ensures OrderStep(db, Remarked(db, m, mark, delta), i)
  {
    if db.subs[i].status == SubExpired {
      assert DebitedOf(db.marks[m := mark], i) == DebitedOf(db.marks, i);
    }
  }

  lemma DebitStep(db: Db, m: nat, now: Moment, i: nat)
    requires Linked(db) && DebitToken(db, m, now).Success? && Known(db, i)
    ensures OrderStep(db, DebitToken(db, m, now).value, i)
  {
    if !db.marks[m].debited {
      DebitRemarks(db, m, now);
      RemarkStep(db, m, db.marks[m].(debited := true), -1, i);
    }
  }

  lemma GiveBackStep(db: Db, m: nat, i: nat)
    requires Linked(db) && Tokens(db) && RefundToken(db, m).Success? && Known(db, i)
    ensures OrderStep(db, RefundToken(db, m).value, i)
  {
    if db.marks[m].debited {
      var status := db.marks[m].status;
      assert db.(marks := db.marks[m := db.marks[m].(status := status)]) == db;
      RefundRemarks(db, m, status);
      RemarkStep(db, m, db.marks[m].(status := status, debited := false), 1, i);
    }
  }

  lemma RenameStep(db: Db, m: nat, status: AttendanceStatus, i: nat)
    requires m in db.marks && Known(db, i)
    ensures OrderStep(db, db.(marks := db.marks[m := db.marks[m].(status := status)]), i)
  {
    assert DebitedOf(db.marks[m := db.marks[m].(status := status)], i) == DebitedOf(db.marks, i);
  }

  lemma SetStatusStep(db: Db, m: nat, status: AttendanceStatus, now: Moment, i: nat)
    requires Linked(db) && Tokens(db) && SetAttendanceStatus(db, m, status, now).Success? && Known(db, i)
    ensures OrderStep(db, SetAttendanceStatus(db, m, status, now).value, i)
  {
    var mark := db.marks[m];
    var renamed := db.(marks := db.marks[m := mark.(status := status)]);
    if mark.status == status {
    } else if status == Attended {
      RenameStep(db, m, status, i);
      assert Linked(renamed);
      DebitStep(renamed, m, now, i);
    } else if mark.debited {
      RefundRemarks(db, m, status);
      RemarkStep(db, m, mark.(status := status, debited := false), 1, i);
    } else {
      RenameStep(db, m, status, i);
    }
  }

  lemma OpenMarkStep(db: Db, seat: SeatKey, date: int, i: nat)
    requires Tokens(db) && Known(db, i)
    ensures OrderStep(db, OpenMark(db, seat, date), i)
  {
    NextMarkIsNew(db);
    assert DebitedOf(db.marks[db.nextMark := Attendance(seat, date, Attended, false)], i) == DebitedOf(db.marks, i);
  }

  lemma ClaimStep(db: Db, job: nat, j: nat, moment: Moment, i: nat)
    requires Orders(db) && Refunds(db) && Known(db, i)
    ensures OrderStep(db, ClaimRefund(db, job, j, moment), i)
  {
    if job !in db.jobs && Claimable(db, j, moment) {
      ClaimShape(db, job, j, moment);
      ReflagStep(db, j, db.txs[j].(claimedUntil := Some(moment + REFUND_CLAIM_TTL)), i);
    }
  }

  lemma CloseRefundStep(db: Db, j: nat, note: RefundNote, i: nat)
    requires j in db.txs && Known(db, i)
    ensures OrderStep(db, CloseRefund(db, j, note), i)
  {
    NoStep(db, i);
    UnflagStep(db, j, Unflagged(db.txs[j], note), i);
  }

  lemma UnflagStep(db: Db, j: nat, t: Transaction, i: nat)
    requires j in db.txs && Known(db, i) && Evolves(db.txs[j], t) && !t.requiresCompensation
    ensures OrderStep(db, SetTx(db, j, t), i)
  {
  }

  lemma SendStep(db: Db, job: nat, answer: GatewayAnswer, i: nat)
    requires Known(db, i)
    ensures OrderStep(db, SendRefund(db, job, answer), i)
  {
  }

  lemma SettleStep(db: Db, job: nat, i: nat)
    requires Known(db, i)
    ensures OrderStep(db, SettleRefund(db, job), i)
  {
    if job in db.jobs {
      var j := db.jobs[job];
      var ended := db.(jobs := db.jobs - {job});
      if j.tx in db.txs && !j.answer.NoAnswer? {
        CloseRefundStep(ended, j.tx, if j.answer.Accepted? then Refunded(j.answer.refundId) else RefundFailed, i);
      }
    }
  }

  lemma NoStep(db: Db, i: nat)
    requires Known(db, i)
    ensures OrderStep(db, db, i)
  {
  }

  lemma OrderActionStep(db: Db, a: Action, i: nat)
    requires Inv(db) && Known(db, i)
    requires a.PlaceAnOrder? || a.PaymentSucceeded? || a.PaymentCanceled? || a.SweepStale? || a.SweepExpired?
    ensures OrderStep(db, Exec(db, a), i)
  {
    NoStep(db, i);
    match a
    case PlaceAnOrder(w, req, now) =>
      if WorldOk(w) && Checkout(db, w, req, now).Success? {
        CheckoutStep(db, w, req, now, i);
      }
    case PaymentSucceeded(w, j, info, now) =>
      if WorldOk(w) {
        SuccessStep(db, w, j, info, now, i);
      }
    case PaymentCanceled(j, paymentId) => CancellationStep(db, j, paymentId, i);
    case SweepStale(j, moment) => SweepStaleStep(db, j, i);
    case SweepExpired(j, moment) => ExpireStep(db, j, moment, i);
  }

  lemma TokenActionStep(db: Db, a: Action, i: nat)
    requires Inv(db) && Known(db, i) && (a.Debit? || a.GiveBack? || a.SetStatus? || a.OpenLesson?)
    ensures OrderStep(db, Exec(db, a), i)
  {
    NoStep(db, i);
    match a
    case Debit(m, now) =>
      if Linked(db) && DebitToken(db, m, now).Success? {
        DebitStep(db, m, now, i);
      }
    case GiveBack(m) =>
      if Linked(db) && RefundToken(db, m).Success? {
        GiveBackStep(db, m, i);
      }
    case SetStatus(m, status, now) =>
      if Linked(db) && SetAttendanceStatus(db, m, status, now).Success? {
        SetStatusStep(db, m, status, now, i);
      }
    case OpenLesson(seat, date) => OpenMarkStep(db, seat, date, i);
  }

  lemma RefundActionStep(db: Db, a: Action, i: nat)
    requires Inv(db) && Known(db, i) && (a.Claim? || a.Send? || a.Settle?)
    ensures OrderStep(db, Exec(db, a), i)
  {
    match a
    case Claim(job, j, moment) => ClaimStep(db, job, j, moment, i);
    case Send(job, answer) => SendStep(db, job, answer, i);
    case Settle(job) => SettleStep(db, job, i);
  }

  /** No step of the engine does more to an order than this. */
  lemma EveryStep(db: Db, a: Action, i: nat)
    requires Inv(db) && i in db.txs
    ensures OrderStep(db, Exec(db, a), i)
  {
    if a.Debit? || a.GiveBack? || a.SetStatus? || a.OpenLesson? {
      TokenActionStep(db, a, i);
    } else if a.Claim? || a.Send? || a.Settle? {
      RefundActionStep(db, a, i);
    } else {
      OrderActionStep(db, a, i);
    }
  }

  // ---- A decided order ----

  /** The seats of a decided order are enrolled while it is active and given up otherwise. */
  ghost predicate SeatsSettled(db: Db, i: nat)
    requires i in db.subs
  {
    forall k <- db.enrs :: k.order == i ==>
      db.enrs[k].status == if db.subs[i].status == SubActive then Enrolled else EnrollmentCanceled
  }

  /** The same seats and token rows exist for the order. */
  ghost predicate SameRows(db: Db, after: Db, i: nat) {
    && (forall s :: SeatKey(i, s) in after.enrs <==> SeatKey(i, s) in db.enrs)
    && (forall s :: SeatKey(i, s) in after.tokens <==> SeatKey(i, s) in db.tokens)
  }

  lemma DecidedSeats(db: Db, i: nat)
    requires Orders(db) && i in db.txs && db.txs[i].status != TxPending
    ensures i in db.subs && db.subs[i].status in {SubActive, SubExpired, SubCanceled} && SeatsSettled(db, i)
  {
    assert OrderOk(db, i);
    forall k | k in db.enrs && k.order == i
      ensures db.enrs[k].status == if db.subs[i].status == SubActive then Enrolled else EnrollmentCanceled
    {
      assert k == SeatKey(i, k.slot);
    }
  }

  lemma DecidedRows(db: Db, after: Db, i: nat)
    requires Orders(db) && Orders(after) && OrderStep(db, after, i) && db.txs[i].status != TxPending
    ensures SameRows(db, after, i)
  {
    assert OrderOk(db, i) && OrderOk(after, i);
    forall s
      ensures SeatKey(i, s) in after.enrs <==> SeatKey(i, s) in db.enrs
      ensures SeatKey(i, s) in after.tokens <==> SeatKey(i, s) in db.tokens
    {
      assert SeatKey(i, s) in db.enrs <==> s in db.txs[i].slots.ids;
      assert SeatKey(i, s) in after.enrs <==> s in after.txs[i].slots.ids;
      assert SeatKey(i, s) in db.tokens <==> (s in db.txs[i].slots.ids && HasTokens(db.subs[i].status));
      assert SeatKey(i, s) in after.tokens <==> (s in after.txs[i].slots.ids && HasTokens(after.subs[i].status));
    }
  }

  /**
   Whatever is called, a decided order keeps its status, its money, its seats and
   its token rows; a canceled or expired subscription does not change at all, and
   the seats of an active one are given up only when it expires.
   */
  lemma DecidedOrderStays(db: Db, a: Action, i: nat)
    requires Inv(db) && i in db.txs && db.txs[i].status != TxPending
    ensures var after := Exec(db, a);
            && OrderStep(db, after, i) && SameRows(db, after, i)
            && SeatsSettled(db, i) && SeatsSettled(after, i)
  {
    EveryStep(db, a, i);
    ExecKeepsInv(db, a);
    DecidedSeats(db, i);
    DecidedSeats(Exec(db, a), i);
    DecidedRows(db, Exec(db, a), i);
  }
}
