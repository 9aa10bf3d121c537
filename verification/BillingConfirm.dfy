/**
 What a payment confirmation does, decided by the payment, the schedule and the
 rows before the call: which payments are accepted, what becomes of the order
 otherwise, and whose money is to go back.
 */
module BillingConfirm {
  import opened Wrappers
  import opened BillingModel
  import opened BillingSteps
  import opened BillingInvariant
  import opened BillingKeepsClose
  import opened BillingRuns
  import Calendar

  predicate Pays(t: Transaction, info: PaymentInfo) {
    info.currency == "RUB" && info.amount == t.amount
  }

  /** Which slot fails its check first, and why. */
  ghost predicate FailsFirst(enrs: map<SeatKey, Enrollment>, w: World, i: nat, ids: seq<int>, now: Moment, k: nat, r: Reason) {
    && k < |ids| && !SeatReady(enrs, w, i, ids[k], now)
    && (forall j :: 0 <= j < k ==> SeatReady(enrs, w, i, ids[j], now))
    && r == (if !HeldBy(enrs, i, ids[k]) then HoldLost else if ids[k] !in w.capacity then SlotRemoved else SeatsTakenAfterPayment)
  }

  ghost predicate SomeFailsFirst(enrs: map<SeatKey, Enrollment>, w: World, i: nat, ids: seq<int>, now: Moment, r: Reason) {
    exists k :: FailsFirst(enrs, w, i, ids, now, k, r)
  }

  lemma SeatFails(enrs: map<SeatKey, Enrollment>, w: World, i: nat, ids: seq<int>, now: Moment, k: nat)
    requires k < |ids|
    ensures var r := EnrollProblem(enrs, w, i, ids, now, k);
            if SeatReady(enrs, w, i, ids[k], now) then r == EnrollProblem(enrs, w, i, ids, now, k + 1)
            else r == Some(if !HeldBy(enrs, i, ids[k]) then HoldLost else if ids[k] !in w.capacity then SlotRemoved else SeatsTakenAfterPayment)
  {
    OthersAreSeats(enrs, i, ids[k], now);
  }

  lemma {:induction false} FirstProblem(enrs: map<SeatKey, Enrollment>, w: World, i: nat, ids: seq<int>, now: Moment, k: nat)
    requires k <= |ids| && forall j :: 0 <= j < k ==> SeatReady(enrs, w, i, ids[j], now)
    ensures var r := EnrollProblem(enrs, w, i, ids, now, k);
            if r.Some? then SomeFailsFirst(enrs, w, i, ids, now, r.value)
            else forall j :: 0 <= j < |ids| ==> SeatReady(enrs, w, i, ids[j], now)
    decreases |ids| - k
  {
    if k < |ids| {
      SeatFails(enrs, w, i, ids, now, k);
      if SeatReady(enrs, w, i, ids[k], now) {
        FirstProblem(enrs, w, i, ids, now, k + 1);
      } else {
        assert FailsFirst(enrs, w, i, ids, now, k, EnrollProblem(enrs, w, i, ids, now, k).value);
      }
    }
  }

  // ---- The three ways a pending order can end ----

  /** The order is closed: every seat and the subscription given up, the deposit share back with its parent. */
  ghost predicate ClosedAs(db: Db, after: Db, i: nat, t: Transaction)
    requires i in db.txs && i in db.subs
  {
    var share := db.txs[i].metadata.depositApplied;
    && after.txs == db.txs[i := t.(metadata := t.metadata.(depositReturned := share > 0))]
    && after.subs == db.subs[i := db.subs[i].(status := SubCanceled)]
    && after.enrs == (map k <- db.enrs :: if k.order == i then db.enrs[k].(status := EnrollmentCanceled) else db.enrs[k])
    && (forall p :: BalanceOf(after, p) == BalanceOf(db, p) + if p == db.txs[i].parent then share else 0)
    && after.journal == (if share > 0 then db.journal + [DepositEntry(db.txs[i].parent, share, OrderCanceledReturn, OfTransaction(i))]
                         else db.journal)
    && after.tokens == db.tokens && after.marks == db.marks && after.jobs == db.jobs && after.calls == db.calls
  }

  /** From the earliest next lesson of the slots to the last second of the day one month later. */
  ghost predicate WindowFits(w: World, ids: seq<int>, window: Window) {
    && Calendar.Valid(window.start) && Calendar.HasNextMonth(window.start) && Calendar.Valid(Calendar.MonthAfter(window.start))
    && (exists s <- ids :: s in w.nextLesson && w.nextLesson[s] == window.start)
    && (forall s <- ids :: s in w.nextLesson && Calendar.Valid(w.nextLesson[s])
          && Calendar.Ordinal(window.start) <= Calendar.Ordinal(w.nextLesson[s]))
    && window.expiresAt == Calendar.Ordinal(Calendar.MonthAfter(window.start)) * 24 * 60 * 60 + (24 * 60 * 60 - 1)
  }

  /** The order is active: all seats enrolled, four tokens for each, and nothing of other orders touched. */
  ghost predicate ActiveAs(db: Db, after: Db, w: World, i: nat, t: Transaction)
    requires i in db.subs && t.slots.SlotList?
  {
    && after.txs == db.txs[i := t]
    && i in after.subs && after.subs[i].window.Some? && WindowFits(w, t.slots.ids, after.subs[i].window.value)
    && after.subs == db.subs[i := db.subs[i].(status := SubActive, window := after.subs[i].window)]
    && after.enrs == (map k <- db.enrs :: if k.order == i then db.enrs[k].(status := Enrolled) else db.enrs[k])
    && (forall k :: k in after.tokens <==> k in db.tokens || (k.order == i && k.slot in t.slots.ids))
    && (forall k <- after.tokens :: after.tokens[k] == if k.order == i && k.slot in t.slots.ids then TokenRow(4, 4) else db.tokens[k])
    && after.deposits == db.deposits && after.journal == db.journal
    && after.marks == db.marks && after.jobs == db.jobs && after.calls == db.calls
  }

  /** The payment is accepted and goes into the books, but the order is closed and the money is to go back. */
  function ToRefund(t: Transaction, paymentId: string, r: Reason): Transaction {
    t.(status := TxSucceeded, externalId := Some(paymentId), requiresCompensation := true,
       metadata := t.metadata.(compensationRequired := true, reason := Some(r)))
  }

  /** Every slot known and every seat ready. */
  predicate CanActivate(db: Db, w: World, i: nat, ids: seq<int>, now: Moment) {
    forall s <- ids :: s in w.nextLesson && SeatReady(db.enrs, w, i, s, now)
  }

  /** The first thing that stands in the way: a slot without a next lesson, else the first seat that fails. */
  ghost predicate FirstObstacle(db: Db, w: World, i: nat, ids: seq<int>, now: Moment, r: Reason) {
    if exists s <- ids :: s !in w.nextLesson then r == SlotRemoved
    else SomeFailsFirst(db.enrs, w, i, ids, now, r)
  }

  /**
   What a success notification answers. A pending order: another amount or
   currency fails it and keeps nothing to refund; otherwise it becomes active, or
   it is closed and flagged for the refund with the first obstacle as reason. A
   decided order: only a payment after the expiry sweep is flagged, once.
   */
  ghost predicate Answers(db: Db, w: World, i: nat, info: PaymentInfo, now: Moment, after: Db, error: Option<Reason>) {
    if i !in db.txs || i !in db.subs || !db.txs[i].slots.SlotList? then after == db && error == None
    else if db.txs[i].status == TxPending then AnswersPending(db, w, i, info, now, after, error)
    else if db.txs[i].status == TxCanceled && db.txs[i].metadata.ttlExpired && !db.txs[i].metadata.compensationRequired then
      && error == Some(PaymentSucceededAfterExpiry)
      && after == db.(txs := db.txs[i := ToRefund(db.txs[i], info.id, PaymentSucceededAfterExpiry).(status := TxCanceled)])
    else after == db && error == None
  }

  ghost predicate AnswersPending(db: Db, w: World, i: nat, info: PaymentInfo, now: Moment, after: Db, error: Option<Reason>)
    requires i in db.txs && i in db.subs && db.txs[i].slots.SlotList?
  {
    var t := db.txs[i];
    if !Pays(t, info) then
      && error == Some(AmountMismatch)
      && ClosedAs(db, after, i, t.(status := TxFailed, externalId := Some(info.id),
                                   metadata := t.metadata.(reason := Some(AmountMismatch))))
    else if CanActivate(db, w, i, t.slots.ids, now) then
      error == None && ActiveAs(db, after, w, i, t.(status := TxSucceeded, externalId := Some(info.id)))
    else
      && error.Some? && FirstObstacle(db, w, i, t.slots.ids, now, error.value)
      && ClosedAs(db, after, i, ToRefund(t, info.id, error.value))
  }

  // ---- Proofs ----

  lemma ReleasedIsClosed(db: Db, i: nat, t: Transaction)
    requires Orders(db) && Ledger(db) && Closes(db, i, t)
    ensures ClosedAs(db, ReleaseOrderResources(SetTx(db, i, t), i), i, t)
  {
    assert OrderOk(db, i);
    ReleaseCloses(db, i, t);
    AllSeatsGivenUp(db.enrs, i);
    ClosedRows(db, i, t);
  }

  lemma AllSeatsGivenUp(enrs: map<SeatKey, Enrollment>, i: nat)
    ensures CancelLive(enrs, i) == map k <- enrs :: if k.order == i then enrs[k].(status := EnrollmentCanceled) else enrs[k]
  {
  }

  lemma ClosedRows(db: Db, i: nat, t: Transaction)
    requires Closes(db, i, t) && t.metadata.depositApplied >= 0
    requires t.metadata.depositApplied > 0 ==> t.parent in db.deposits
    requires CancelLive(db.enrs, i) == map k <- db.enrs :: if k.order == i then db.enrs[k].(status := EnrollmentCanceled) else db.enrs[k]
    ensures ClosedAs(db, Closed(db, i, t), i, t)
  {
  }

  lemma MismatchCloses(db: Db, w: World, i: nat, info: PaymentInfo, now: Moment)
    requires Orders(db) && Ledger(db) && WorldOk(w) && i in db.txs && db.txs[i].status == TxPending && !Pays(db.txs[i], info)
    ensures db.txs[i].slots.SlotList? && i in db.subs
    ensures var r := ApplySuccess(db, w, i, info, now); AnswersPending(db, w, i, info, now, r.0, r.1)
  {
    PendingTogether(db, i);
    var t := db.txs[i];
    ReleasedIsClosed(db, i, t.(externalId := Some(info.id), status := TxFailed, metadata := t.metadata.(reason := Some(AmountMismatch))));
  }

  lemma PaidIsVerified(db: Db, w: World, i: nat, info: PaymentInfo, now: Moment)
    requires Orders(db) && WorldOk(w) && i in db.txs && db.txs[i].status == TxPending && Pays(db.txs[i], info)
    ensures i in db.subs && TxFits(i, db.txs[i], db.subs[i])
    ensures ApplySuccess(db, w, i, info, now)
         == ApplyVerifiedSuccess(db, w, i, db.txs[i].(externalId := Some(info.id), status := TxSucceeded), i, db.txs[i].slots.ids, now)
  {
    PendingTogether(db, i);
  }

  lemma RefundCloses(db: Db, i: nat, paymentId: string, r: Reason)
    requires Orders(db) && Ledger(db) && i in db.txs && db.txs[i].status == TxPending
    ensures i in db.subs
    ensures var t := db.txs[i].(externalId := Some(paymentId), status := TxSucceeded);
            ClosedAs(db, ReleaseOrderResources(SetTx(db, i, MarkForCompensation(t, r)), i), i, ToRefund(db.txs[i], paymentId, r))
  {
    PendingTogether(db, i);
    var t := db.txs[i].(externalId := Some(paymentId), status := TxSucceeded);
    assert MarkForCompensation(t, r) == ToRefund(db.txs[i], paymentId, r);
    ReleasedIsClosed(db, i, ToRefund(db.txs[i], paymentId, r));
  }

  lemma WindowOfLessons(w: World, ids: seq<int>)
    requires WorldOk(w) && ids != [] && FirstLesson(w, ids).Success?
    ensures WindowFits(w, ids, WindowFrom(FirstLesson(w, ids).value))
  {
    FirstLessonIsEarliest(w, ids);
    Calendar.MonthAfterLandsInNextMonth(FirstLesson(w, ids).value);
    var s :| s in ids && NextLesson(w, s) == FirstLesson(w, ids);
    assert s in w.nextLesson;
    forall s | s in ids ensures s in w.nextLesson && Calendar.Valid(w.nextLesson[s])
                                && Calendar.Ordinal(FirstLesson(w, ids).value) <= Calendar.Ordinal(w.nextLesson[s]) {
      assert NextLesson(w, s).Success?;
    }
  }

  lemma EnrolledAll(db: Db, i: nat)
    requires Orders(db) && i in db.txs && db.txs[i].slots.SlotList?
    requires forall s <- db.txs[i].slots.ids :: HeldBy(db.enrs, i, s)
    ensures EnrollSlots(db.enrs, i, db.txs[i].slots.ids)
         == map k <- db.enrs :: if k.order == i then db.enrs[k].(status := Enrolled) else db.enrs[k]
  {
    assert OrderOk(db, i);
    forall k | k in db.enrs && k.order == i ensures k.slot in db.txs[i].slots.ids && db.enrs[k].status == Held {
      assert k == SeatKey(i, k.slot);
      assert HeldBy(db.enrs, i, k.slot);
    }
  }

  lemma VerifiedActivates(db: Db, w: World, i: nat, t: Transaction, now: Moment)
    requires Orders(db) && WorldOk(w) && i in db.txs && i in db.subs && TxFits(i, db.txs[i], db.subs[i]) && db.subs[i].status == SubPending
    requires t.slots == db.txs[i].slots && FirstLesson(w, t.slots.ids).Success? && EnrollProblem(db.enrs, w, i, t.slots.ids, now, 0).None?
    ensures var r := ApplyVerifiedSuccess(db, w, i, t, i, t.slots.ids, now);
            ActiveAs(db, r.0, w, i, t) && r.1 == None && CanActivate(db, w, i, t.slots.ids, now)
  {
    FirstProblem(db.enrs, w, i, t.slots.ids, now, 0);
    FirstLessonKnownIff(w, t.slots.ids);
    WindowOfLessons(w, t.slots.ids);
    EnrolledAll(db, i);
  }

  lemma VerifiedCloses(db: Db, w: World, i: nat, info: PaymentInfo, now: Moment)
    requires Orders(db) && Ledger(db) && WorldOk(w) && i in db.txs && db.txs[i].status == TxPending
    requires i in db.subs && TxFits(i, db.txs[i], db.subs[i])
    requires FirstLesson(w, db.txs[i].slots.ids).Failure? || EnrollProblem(db.enrs, w, i, db.txs[i].slots.ids, now, 0).Some?
    ensures var t := db.txs[i].(externalId := Some(info.id), status := TxSucceeded);
            var r := ApplyVerifiedSuccess(db, w, i, t, i, t.slots.ids, now);
            && r.1.Some? && ClosedAs(db, r.0, i, ToRefund(db.txs[i], info.id, r.1.value))
            && FirstObstacle(db, w, i, t.slots.ids, now, r.1.value) && !CanActivate(db, w, i, t.slots.ids, now)
  {
    var ids := db.txs[i].slots.ids;
    PendingTogether(db, i);
    FirstLessonKnownIff(w, ids);
    if FirstLesson(w, ids).Failure? {
      RefundCloses(db, i, info.id, SlotRemoved);
    } else {
      var r := EnrollProblem(db.enrs, w, i, ids, now, 0).value;
      FirstProblem(db.enrs, w, i, ids, now, 0);
      UndoneIsReleased(db, i, MarkForCompensation(db.txs[i].(externalId := Some(info.id), status := TxSucceeded), r));
      RefundCloses(db, i, info.id, r);
    }
  }

  lemma PendingAnswers(db: Db, w: World, i: nat, info: PaymentInfo, now: Moment)
    requires Orders(db) && Ledger(db) && WorldOk(w) && i in db.txs && db.txs[i].status == TxPending
    ensures db.txs[i].slots.SlotList? && i in db.subs
    ensures var r := ApplySuccess(db, w, i, info, now); AnswersPending(db, w, i, info, now, r.0, r.1)
  {
    if !Pays(db.txs[i], info) {
      MismatchCloses(db, w, i, info, now);
    } else {
      PaidIsVerified(db, w, i, info, now);
      var t := db.txs[i].(externalId := Some(info.id), status := TxSucceeded);
      PendingTogether(db, i);
      if FirstLesson(w, t.slots.ids).Success? && EnrollProblem(db.enrs, w, i, t.slots.ids, now, 0).None? {
        VerifiedActivates(db, w, i, t, now);
      } else {
        VerifiedCloses(db, w, i, info, now);
      }
    }
  }

  /** The state and the deferred error of a success notification, from its input alone. */
  lemma SuccessAnswers(db: Db, w: World, i: nat, info: PaymentInfo, now: Moment)
    requires Inv(db) && WorldOk(w)
    ensures var r := ApplySuccess(db, w, i, info, now); Answers(db, w, i, info, now, r.0, r.1)
  {
    if i in db.txs {
      PendingTogether(db, i);
      if db.txs[i].status == TxPending {
        PendingAnswers(db, w, i, info, now);
      }
    }
  }

  // ---- The other ways to close an order ----

  /** A cancellation closes a pending order and keeps the payment id; no other order is touched. */
  lemma CancellationAnswers(db: Db, i: nat, paymentId: string)
    requires Inv(db)
    ensures var after := ApplyCancellation(db, i, paymentId);
            if i in db.txs && db.txs[i].status == TxPending
            then i in db.subs && ClosedAs(db, after, i, db.txs[i].(status := TxCanceled, externalId := Some(paymentId)))
            else after == db
  {
    if i in db.txs && db.txs[i].status == TxPending {
      PendingTogether(db, i);
      ReleasedIsClosed(db, i, db.txs[i].(status := TxCanceled, externalId := Some(paymentId)));
    }
  }

  function TimedOut(t: Transaction): Transaction {
    t.(status := TxCanceled, metadata := t.metadata.(ttlExpired := true))
  }

  /** A sweep closes an order that is still pending and marks it as timed out. */
  lemma SweepAnswers(db: Db, i: nat)
    requires Inv(db)
    ensures var after := SweepStaleOne(db, i);
            if i in db.txs && db.txs[i].status == TxPending
            then i in db.subs && ClosedAs(db, after, i, TimedOut(db.txs[i]))
            else after == db
  {
    if i in db.txs && db.txs[i].status == TxPending {
      PendingTogether(db, i);
      ReleasedIsClosed(db, i, TimedOut(db.txs[i]));
    }
  }

  /** An order times out exactly when it has been pending for more than a quarter of an hour. */
  lemma TimedOutAnswers(db: Db, i: nat, moment: Moment)
    requires Inv(db)
    ensures var after := Exec(db, SweepStale(i, moment));
            if i in db.txs && db.txs[i].status == TxPending && moment - db.txs[i].createdAt > 15 * 60
            then i in db.subs && ClosedAs(db, after, i, TimedOut(db.txs[i]))
            else after == db
  {
    SweepAnswers(db, i);
  }
}
