/**
 The billing services as they run: tables updated row by row, slot loops and
 batch loops, and roll back when a call raises. Each method is proved to have
 exactly the effect of its step on the whole database.
 */
module BillingService {
  import opened Wrappers
  import opened BillingModel
  import opened BillingInvariant
  import opened BillingRuns
  import opened BillingSweeps
  import E = BillingEffects
  import A = BillingAnswers
  import C = BillingConfirm
  import K = BillingCheckout
  import BillingKeepsFulfil
  import Calendar
  import S = BillingSteps

  datatype Receipt = Receipt(order: nat, confirmed: bool)

  datatype PaymentStatus = PaymentDone | PaymentRefused | InBetween

  class BillingStore {
    var next: nat
    var subs: map<nat, Subscription>
    var txs: map<nat, Transaction>
    var enrs: map<SeatKey, Enrollment>
    var tokens: map<SeatKey, TokenRow>
    var nextMark: nat
    var marks: map<nat, Attendance>
    var deposits: map<int, int>
    var journal: seq<DepositEntry>
    var jobs: map<nat, RefundJob>
    var calls: seq<RefundCall>

    function Snapshot(): Db
      reads this
    {
      Db(next, subs, txs, enrs, tokens, nextMark, marks, deposits, journal, jobs, calls)
    }

    constructor ()
      ensures Snapshot() == EMPTY_DB && Inv(Snapshot())
    {
      next, subs, txs, enrs, tokens := 0, map[], map[], map[], map[];
      nextMark, marks, deposits, journal := 0, map[], map[], [];
      jobs, calls := map[], [];
      new;
      EmptyDbOk();
    }

    // ---- Rollback ----

    method RollBack(db: Db)
      modifies this
      ensures Snapshot() == db
    {
      next, subs, txs, enrs, tokens := db.next, db.subs, db.txs, db.enrs, db.tokens;
      nextMark, marks, deposits, journal := db.nextMark, db.marks, db.deposits, db.journal;
      jobs, calls := db.jobs, db.calls;
    }

    // ---- Giving resources back ----

    method ReturnDepositHold(i: nat)
      requires i in txs
      modifies `journal, `deposits, `txs
      ensures Snapshot() == S.ReturnDepositHold(old(Snapshot()), i)
      ensures if E.ReturnDue(old(Snapshot()), i) then E.ShareReturned(old(Snapshot()), Snapshot(), i)
              else E.SameMoneyTables(old(Snapshot()), Snapshot(), i)
      ensures !E.ReturnDue(Snapshot(), i)
    {
      E.ReturnEffect(Snapshot(), i);
      var t := txs[i];
      var applied := t.metadata.depositApplied;
      if applied <= 0 {
        return;
      }
      if t.metadata.depositReturned {
        return;
      }
      if t.parent !in deposits {
        return;
      }
      if Posted(journal, OfTransaction(i), OrderCanceledReturn) {
        return;
      }
      journal := journal + [DepositEntry(t.parent, applied, OrderCanceledReturn, OfTransaction(i))];
      deposits := deposits[t.parent := deposits[t.parent] + applied];
      txs := txs[i := t.(metadata := t.metadata.(depositReturned := true))];
    }

    method ReleaseOrderResources(i: nat)
      requires i in txs
      modifies `enrs, `subs, `journal, `deposits, `txs
      ensures Snapshot() == S.ReleaseOrderResources(old(Snapshot()), i)
      ensures E.HoldsNothing(Snapshot(), i) && E.OthersUntouched(old(Snapshot()), Snapshot(), i)
    {
      ghost var before := Snapshot();
      if txs[i].subscription.Some? {
        FreeSeats(txs[i].subscription.value);
      }
      ReturnDepositHold(i);
      assert Snapshot() == S.ReleaseOrderResources(before, i);
      E.ReleaseEffect(before, i);
    }

    /** The order's live seats and its pending subscription are given up. */
    method FreeSeats(s: nat)
      modifies `enrs, `subs
      ensures Snapshot() == old(Snapshot()).(enrs := S.CancelLive(old(enrs), s), subs := S.CancelPendingSubscription(old(subs), s))
    {
      CancelLiveEnrollments(s);
      CancelPendingSubscription(s);
    }

    method CancelPendingSubscription(s: nat)
      modifies `subs
      ensures subs == S.CancelPendingSubscription(old(subs), s)
    {
      if s in subs && subs[s].status == SubPending {
        subs := subs[s := subs[s].(status := SubCanceled)];
      }
    }

    method ApplyCancellation(i: nat, paymentId: string)
      modifies this
      ensures Snapshot() == S.ApplyCancellation(old(Snapshot()), i, paymentId)
      ensures if i in old(txs) && old(txs)[i].status == TxPending
              then E.HoldsNothing(Snapshot(), i) && E.OthersUntouched(old(Snapshot()), Snapshot(), i)
                   && txs[i].status == TxCanceled && txs[i].externalId == Some(paymentId)
              else Snapshot() == old(Snapshot())
      ensures Inv(old(Snapshot())) && i in old(txs) && old(txs)[i].status == TxPending ==>
                i in old(subs) && C.ClosedAs(old(Snapshot()), Snapshot(), i, old(txs)[i].(status := TxCanceled, externalId := Some(paymentId)))
    {
      E.CancellationEffect(Snapshot(), i, paymentId);
      if Inv(Snapshot()) {
        C.CancellationAnswers(Snapshot(), i, paymentId);
      }
      if i !in txs || txs[i].status != TxPending {
        return;
      }
      txs := txs[i := txs[i].(status := TxCanceled, externalId := Some(paymentId))];
      ReleaseOrderResources(i);
    }

    // ---- Activation ----

    /** The earliest next lesson over the slots; an unknown slot stops the search. */
    static method EarliestLesson(w: World, ids: seq<int>) returns (r: Result<Calendar.Date, int>)
      requires WorldOk(w) && ids != []
      ensures r == S.FirstLesson(w, ids)
    {
      r := S.NextLesson(w, ids[0]);
      var k := 1;
      while k < |ids| && r.Success?
        invariant 1 <= k <= |ids| && r == S.FirstLesson(w, ids[..k])
      {
        assert ids[..k + 1][..k] == ids[..k];
        var next := S.NextLesson(w, ids[k]);
        if next.Failure? {
          r := next;
        } else if Calendar.Ordinal(next.value) < Calendar.Ordinal(r.value) {
          r := next;
        }
        k := k + 1;
      }
      if k == |ids| {
        assert ids[..k] == ids;
      } else {
        FirstFailureStays(w, ids, k);
      }
    }

    method GrantTokens(order: nat, ids: seq<int>)
      modifies `tokens
      ensures tokens == S.GrantTokens(old(tokens), order, ids)
    {
      for k := 0 to |ids|
        invariant tokens == S.GrantTokens(old(tokens), order, ids[..k])
      {
        assert ids[..k + 1][..k] == ids[..k];
        tokens := tokens[SeatKey(order, ids[k]) := TokenRow(TOKENS_PER_SLOT, TOKENS_PER_SLOT)];
      }
      assert ids[..|ids|] == ids;
    }

    // ---- Checkout ----

    method ClearStaleHolds(slot: int, now: Moment)
      modifies `enrs
      ensures enrs == S.CancelStaleHolds(old(enrs), slot, now)
    {
      enrs := map s <- enrs :: if s.slot == slot && HoldStale(enrs[s], now) then enrs[s].(status := EnrollmentCanceled) else enrs[s];
    }

    /** One turn of the slot loop: clear stale holds, check for room, insert the hold. */
    method HoldSeat(w: World, order: nat, student: int, slot: int, now: Moment) returns (error: Option<S.CheckoutError>)
      modifies `enrs
      ensures match S.BookSlot(old(enrs), w, order, student, slot, now)
              case Success(booked) => error == None && enrs == booked
              case Failure(e) => error == Some(e)
    {
      ClearStaleHolds(slot, now);
      if slot !in w.capacity {
        return Some(S.SlotNotFound(slot));
      }
      if |Seats(enrs, slot, now)| >= w.capacity[slot] {
        return Some(S.NoAvailableSeats(slot));
      }
      if Duplicate(enrs, student, slot) {
        return Some(S.DuplicateEnrollment(slot));
      }
      enrs := enrs[SeatKey(order, slot) := Enrollment(student, Held, now)];
      error := None;
    }

    method HoldSeats(w: World, order: nat, student: int, slots: seq<int>, now: Moment) returns (error: Option<S.CheckoutError>)
      modifies `enrs
      ensures match S.BookSlots(old(enrs), w, order, student, slots, now)
              case Success(booked) => error == None && enrs == booked
              case Failure(e) => error == Some(e)
    {
      for k := 0 to |slots|
        invariant S.BookSlots(old(enrs), w, order, student, slots[..k], now) == Success(enrs)
      {
        BookNext(old(enrs), w, order, student, slots, now, k);
        error := HoldSeat(w, order, student, slots[k], now);
        if error.Some? {
          BookFailureStays(old(enrs), w, order, student, slots, now, k + 1);
          return;
        }
      }
      assert slots[..|slots|] == slots;
      error := None;
    }

    method EnrollHeld(s: nat)
      modifies `enrs
      ensures enrs == S.EnrollHeld(old(enrs), s)
    {
      enrs := map k <- enrs :: if k.order == s && enrs[k].status == Held then enrs[k].(status := Enrolled) else enrs[k];
    }

    method ActivatePrepaid(i: nat, s: nat, window: Window)
      requires i in txs && txs[i].slots.SlotList?
      modifies `txs, `subs, `enrs, `tokens
      ensures Snapshot() == S.PrepaidDone(old(Snapshot()), i, s, window)
    {
      txs := txs[i := txs[i].(status := TxSucceeded, metadata := txs[i].metadata.(paidFromDeposit := true))];
      if s in subs && subs[s].status == SubPending {
        subs := subs[s := subs[s].(status := SubActive, window := Some(window))];
      }
      EnrollHeld(s);
      GrantTokens(s, txs[i].slots.ids);
      PrepaidRows(old(Snapshot()), i, s, window, txs, subs, enrs, tokens);
    }

    /** An order the deposit pays for in full is active at once. */
    method FulfillPrepaidOrder(w: World, i: nat) returns (error: Option<S.CheckoutError>)
      requires i in txs && WorldOk(w)
      modifies `txs, `subs, `enrs, `tokens
      ensures match S.FulfillPrepaid(old(Snapshot()), w, i)
              case Success(db) => error == None && Snapshot() == db
              case Failure(e) => error == Some(e)
    {
      var t := txs[i];
      if t.subscription.None? || t.slots.Damaged? || t.slots.ids == [] {
        return Some(S.UnlinkedPayment);
      }
      var s := t.subscription.value;
      var first := EarliestLesson(w, t.slots.ids);
      if first.Failure? {
        return Some(S.SlotNotFound(first.error));
      }
      FulfillPrepaidShape(Snapshot(), w, i, s, first.value);
      ActivatePrepaid(i, s, S.WindowFrom(first.value));
      error := None;
    }

    method SpendDeposit(parent: int, price: int, useDeposit: bool) returns (applied: int)
      requires price >= 0
      modifies `deposits
      ensures applied == S.DepositShare(old(deposits), parent, price, useDeposit)
      ensures deposits == if applied > 0 then old(deposits)[parent := old(deposits)[parent] - applied] else old(deposits)
      ensures applied > 0 ==> parent in old(deposits)
    {
      applied := 0;
      if useDeposit && parent in deposits && deposits[parent] > 0 {
        applied := if deposits[parent] < price then deposits[parent] else price;
        if applied > 0 {
          deposits := deposits[parent := deposits[parent] - applied];
        }
      }
    }

    /** The deposit pays first; the rest is invoiced. */
    method IssueInvoice(i: nat, parent: int, price: int, slots: seq<int>, useDeposit: bool, now: Moment) returns (applied: int)
      requires price >= 0
      modifies `deposits, `txs, `journal
      ensures applied == S.DepositShare(old(deposits), parent, price, useDeposit)
      ensures applied > 0 ==> parent in old(deposits)
      ensures txs == old(txs)[i := S.NewTransaction(parent, i, price, applied, slots, now)]
      ensures deposits == if applied > 0 then old(deposits)[parent := old(deposits)[parent] - applied] else old(deposits)
      ensures journal == if applied > 0 then old(journal) + [DepositEntry(parent, -applied, CheckoutSpend, OfTransaction(i))] else old(journal)
    {
      applied := SpendDeposit(parent, price, useDeposit);
      txs := txs[i := S.NewTransaction(parent, i, price, applied, slots, now)];
      if applied > 0 {
        journal := journal + [DepositEntry(parent, -applied, CheckoutSpend, OfTransaction(i))];
      }
    }

    /** The new order with its seats held and its invoice, before a prepaid one is fulfilled. */
    method InsertOrder(w: World, req: S.CheckoutRequest, plan: Plan, slots: seq<int>, now: Moment)
      returns (error: Option<S.CheckoutError>, applied: int)
      requires plan.price >= 0
      modifies `next, `subs, `txs, `enrs, `deposits, `journal
      ensures var r := S.BookSlots(old(enrs), w, old(next), req.student, slots, now);
              && (r.Failure? ==> error == Some(r.error))
              && (r.Success? ==>
                    && error == None && applied == S.DepositShare(old(deposits), req.parent, plan.price, req.useDeposit)
                    && (applied > 0 ==> req.parent in old(deposits))
                    && Snapshot() == S.InsertOrder(old(Snapshot()), req.parent, plan, slots, r.value, applied, now))
    {
      var i := next;
      applied := 0;
      next := next + 1;
      subs := subs[i := Subscription(req.parent, plan.price, plan.basePrice, SubPending, None)];
      error := HoldSeats(w, i, req.student, slots, now);
      if error.Some? {
        return;
      }
      applied := IssueInvoice(i, req.parent, plan.price, slots, req.useDeposit, now);
      InsertedRows(old(Snapshot()), req.parent, plan, slots, enrs, applied, now, subs, txs, deposits, journal);
    }

    /** The part of a checkout inside the database transaction; the caller rolls back when it fails. */
    method PlaceOrder(w: World, req: S.CheckoutRequest, plan: Plan, slots: seq<int>, now: Moment)
      returns (r: Result<Receipt, S.CheckoutError>)
      requires WorldOk(w) && plan.price >= 0
      modifies `next, `subs, `txs, `enrs, `tokens, `deposits, `journal
      ensures match S.PlaceOrder(old(Snapshot()), w, req, plan, slots, now)
              case Success(placed) => Snapshot() == placed.db && r == Success(Receipt(placed.order, placed.confirmed))
              case Failure(e) => r == Failure(e)
    {
      var i := next;
      var error, applied := InsertOrder(w, req, plan, slots, now);
      if error.Some? {
        return Failure(error.value);
      }
      PlaceOrderShape(old(Snapshot()), w, req, plan, slots, now, Snapshot());
      if plan.price - applied == 0 {
        error := FulfillPrepaidOrder(w, i);
        if error.Some? {
          return Failure(error.value);
        }
      }
      r := Success(Receipt(i, plan.price - applied == 0));
    }

    /** A checkout, its answer and its effect; an error leaves every table as it was. */
    method CreatePayment(w: World, req: S.CheckoutRequest, now: Moment) returns (r: Result<Receipt, S.CheckoutError>)
      requires WorldOk(w)
      modifies this
      ensures match S.Checkout(old(Snapshot()), w, req, now)
              case Success(placed) => Snapshot() == placed.db && r == Success(Receipt(placed.order, placed.confirmed))
              case Failure(e) => Snapshot() == old(Snapshot()) && r == Failure(e)
      ensures Inv(old(Snapshot())) ==> K.Answers(old(Snapshot()), w, req, now, Placed(r, Snapshot()))
    {
      ghost var before := Snapshot();
      r := CommitOrder(w, req, now);
      if Inv(before) {
        K.CheckoutAnswers(before, w, req, now);
      }
    }

    method CommitOrder(w: World, req: S.CheckoutRequest, now: Moment) returns (r: Result<Receipt, S.CheckoutError>)
      requires WorldOk(w)
      modifies this
      ensures match S.Checkout(old(Snapshot()), w, req, now)
              case Success(placed) => Snapshot() == placed.db && r == Success(Receipt(placed.order, placed.confirmed))
              case Failure(e) => Snapshot() == old(Snapshot()) && r == Failure(e)
    {
      if req.plan !in w.plans {
        return Failure(S.PlanNotFound);
      }
      var plan := w.plans[req.plan];
      var slots := Normalize(req.slotIds);
      if |slots| != plan.slotsCount {
        return Failure(S.PlanSlotsMismatch(plan.slotsCount, |slots|));
      }
      if req.student !in w.students || w.students[req.student] != req.parent {
        return Failure(S.StudentNotOwned);
      }
      var before := Snapshot();
      r := PlaceOrder(w, req, plan, slots, now);
      if r.Failure? {
        RollBack(before);
      }
    }

    // ---- Confirmation ----

    method CheckHeldSeats(w: World, s: nat, ids: seq<int>, now: Moment) returns (problem: Option<Reason>)
      ensures problem == S.EnrollProblem(enrs, w, s, ids, now, 0)
    {
      for k := 0 to |ids|
        invariant S.EnrollProblem(enrs, w, s, ids, now, 0) == S.EnrollProblem(enrs, w, s, ids, now, k)
      {
        var seat := SeatKey(s, ids[k]);
        if seat !in enrs || enrs[seat].status != Held {
          return Some(HoldLost);
        }
        if ids[k] !in w.capacity {
          return Some(SlotRemoved);
        }
        if |Seats(enrs, ids[k], now) - {seat}| >= w.capacity[ids[k]] {
          return Some(SeatsTakenAfterPayment);
        }
      }
      problem := None;
    }

    method EnrollSeats(s: nat, ids: seq<int>)
      requires forall k :: 0 <= k < |ids| ==> SeatKey(s, ids[k]) in enrs && enrs[SeatKey(s, ids[k])].status == Held
      modifies `enrs
      ensures enrs == S.EnrollSlots(old(enrs), s, ids)
    {
      for k := 0 to |ids|
        invariant enrs == S.EnrollSlots(old(enrs), s, ids[..k])
      {
        var seat := SeatKey(s, ids[k]);
        assert forall x :: x in ids[..k + 1] <==> x in ids[..k] || x == ids[k];
        enrs := enrs[seat := enrs[seat].(status := Enrolled)];
      }
      assert ids[..|ids|] == ids;
    }

    /** Checks every seat again, and enrolls all of them or none. */
    method TryEnrollHeldSeats(w: World, s: nat, ids: seq<int>, now: Moment) returns (problem: Option<Reason>)
      modifies `enrs
      ensures problem == S.EnrollProblem(old(enrs), w, s, ids, now, 0)
      ensures enrs == if problem.Some? then old(enrs) else S.EnrollSlots(old(enrs), s, ids)
    {
      problem := CheckHeldSeats(w, s, ids, now);
      if problem.None? {
        SeatsAreHeld(enrs, w, s, ids, now);
        EnrollSeats(s, ids);
      }
    }

    method SaveTransaction(i: nat, t: Transaction)
      modifies `txs
      ensures Snapshot() == S.SetTx(old(Snapshot()), i, t)
    {
      txs := txs[i := t];
    }

    method SaveSubscription(s: nat, row: Subscription)
      modifies `subs
      ensures Snapshot() == old(Snapshot()).(subs := old(subs)[s := row])
    {
      subs := subs[s := row];
    }

    /** The payment is to be refunded and the order's resources go back. */
    method GiveUp(i: nat, reason: Reason)
      requires i in txs
      modifies `enrs, `subs, `journal, `deposits, `txs
      ensures Snapshot() == S.ReleaseOrderResources(S.SetTx(old(Snapshot()), i, S.MarkForCompensation(old(txs)[i], reason)), i)
    {
      SaveTransaction(i, S.MarkForCompensation(txs[i], reason));
      ReleaseOrderResources(i);
    }

    /** The order cannot be activated at all. */
    method Abandon(ghost before: Db, w: World, i: nat, t: Transaction, s: nat, ids: seq<int>, now: Moment, reason: Reason)
      returns (deferred: Option<Reason>)
      requires WorldOk(w) && ids != [] && Snapshot() == S.SetTx(before, i, t)
      requires if S.FirstLesson(w, ids).Failure? then reason == SlotRemoved
               else (s !in before.subs || before.subs[s].status != SubPending) && reason == SubscriptionNotActivatable
      modifies `enrs, `subs, `journal, `deposits, `txs
      ensures (Snapshot(), deferred) == S.ApplyVerifiedSuccess(before, w, i, t, s, ids, now)
    {
      SaveTwice(before, i, t, S.MarkForCompensation(t, reason));
      GiveUp(i, reason);
      deferred := Some(reason);
    }

    method ApplyVerifiedSuccess(w: World, i: nat, t: Transaction, s: nat, ids: seq<int>, now: Moment) returns (deferred: Option<Reason>)
      requires WorldOk(w) && ids != []
      modifies `enrs, `subs, `journal, `deposits, `txs, `tokens
      ensures (Snapshot(), deferred) == S.ApplyVerifiedSuccess(old(Snapshot()), w, i, t, s, ids, now)
    {
      ghost var before := Snapshot();
      SaveTransaction(i, t);
      var first := EarliestLesson(w, ids);
      if first.Failure? {
        deferred := Abandon(before, w, i, t, s, ids, now, SlotRemoved);
        return;
      }
      if s !in subs || subs[s].status != SubPending {
        deferred := Abandon(before, w, i, t, s, ids, now, SubscriptionNotActivatable);
        return;
      }
      deferred := ActivateAndEnroll(before, w, i, t, s, ids, first.value, now);
    }

    /** Activates the subscription, and takes that back when a seat cannot be enrolled. */
    method ActivateAndEnroll(ghost before: Db, w: World, i: nat, t: Transaction, s: nat, ids: seq<int>, first: Calendar.Date, now: Moment)
      returns (deferred: Option<Reason>)
      requires WorldOk(w) && ids != [] && S.FirstLesson(w, ids) == Success(first)
      requires Snapshot() == S.SetTx(before, i, t) && s in subs && subs[s].status == SubPending
      modifies `enrs, `subs, `journal, `deposits, `txs, `tokens
      ensures (Snapshot(), deferred) == S.ApplyVerifiedSuccess(before, w, i, t, s, ids, now)
    {
      SaveSubscription(s, subs[s].(status := SubActive, window := Some(S.WindowFrom(first))));
      deferred := TryEnrollHeldSeats(w, s, ids, now);
      if deferred.Some? {
        UndoActivation(i, t, s, deferred.value);
        UndoneRows(before, w, i, t, s, ids, now, deferred.value);
      } else {
        GrantVerified(before, w, i, t, s, ids, now);
      }
    }

    /** Every seat is enrolled: the tokens complete the order. */
    method GrantVerified(ghost before: Db, w: World, i: nat, t: Transaction, s: nat, ids: seq<int>, now: Moment)
      requires WorldOk(w) && ids != [] && S.FirstLesson(w, ids).Success? && s in before.subs && before.subs[s].status == SubPending
      requires S.EnrollProblem(before.enrs, w, s, ids, now, 0).None? && tokens == before.tokens
      requires subs == before.subs[s := before.subs[s].(status := SubActive, window := Some(S.WindowFrom(S.FirstLesson(w, ids).value)))]
      requires Snapshot() == S.SetTx(before, i, t).(subs := subs, enrs := S.EnrollSlots(before.enrs, s, ids))
      modifies `tokens
      ensures (Snapshot(), None) == S.ApplyVerifiedSuccess(before, w, i, t, s, ids, now)
    {
      GrantTokens(s, ids);
      VerifiedRows(before, w, i, t, s, ids, now, subs, enrs, tokens);
    }

    method UndoActivation(i: nat, t: Transaction, s: nat, reason: Reason)
      requires i in txs && s in subs
      modifies `enrs, `subs, `journal, `deposits, `txs
      ensures Snapshot() == S.ReleaseOrderResources(Undone(old(Snapshot()), i, t, s, reason), i)
    {
      SaveTransaction(i, S.MarkForCompensation(t, reason));
      SaveSubscription(s, subs[s].(status := SubCanceled, window := None));
      ReleaseOrderResources(i);
    }

    /** The database transaction of a success. */
    method CommitSuccess(w: World, i: nat, info: PaymentInfo, now: Moment) returns (deferred: Option<Reason>)
      requires WorldOk(w)
      modifies `enrs, `subs, `journal, `deposits, `txs, `tokens
      ensures (Snapshot(), deferred) == S.ApplySuccess(old(Snapshot()), w, i, info, now)
    {
      if i !in txs {
        return None;
      }
      var t := txs[i].(externalId := Some(info.id));
      if t.status != TxPending {
        if t.status == TxCanceled && t.metadata.ttlExpired && !t.metadata.compensationRequired {
          SaveTransaction(i, S.MarkForCompensation(t, PaymentSucceededAfterExpiry));
          return Some(PaymentSucceededAfterExpiry);
        }
        return None;
      }
      if info.currency != EXPECTED_CURRENCY || info.amount != t.amount {
        SaveTransaction(i, t.(status := TxFailed, metadata := t.metadata.(reason := Some(AmountMismatch))));
        ReleaseOrderResources(i);
        return Some(AmountMismatch);
      }
      if t.subscription.None? || t.slots.Damaged? {
        SaveTransaction(i, S.MarkForCompensation(t.(status := TxFailed), DataIntegrity));
        ReleaseOrderResources(i);
        return Some(DataIntegrity);
      }
      if t.slots.ids == [] {
        return Some(EmptyOrder);
      }
      deferred := ApplyVerifiedSuccess(w, i, t.(status := TxSucceeded), t.subscription.value, t.slots.ids, now);
    }

    /** Applies a payment the provider reports as succeeded; the error is raised only after the commit. */
    method ApplySuccess(w: World, i: nat, info: PaymentInfo, now: Moment) returns (deferred: Option<Reason>)
      requires WorldOk(w)
      modifies `enrs, `subs, `journal, `deposits, `txs, `tokens
      ensures (Snapshot(), deferred) == S.ApplySuccess(old(Snapshot()), w, i, info, now)
      ensures Inv(old(Snapshot())) ==> C.Answers(old(Snapshot()), w, i, info, now, Snapshot(), deferred)
    {
      ghost var before := Snapshot();
      deferred := CommitSuccess(w, i, info, now);
      if Inv(before) {
        C.SuccessAnswers(before, w, i, info, now);
      }
    }

    /** The verified state of the payment decides; a state in between changes nothing. */
    method ConfirmPayment(w: World, info: PaymentInfo, status: PaymentStatus, i: Option<nat>, now: Moment) returns (deferred: Option<Reason>)
      requires WorldOk(w)
      modifies this
      ensures i.None? || status.InBetween? ==> Snapshot() == old(Snapshot()) && deferred.None?
      ensures i.Some? && status.PaymentDone? ==> (Snapshot(), deferred) == S.ApplySuccess(old(Snapshot()), w, i.value, info, now)
      ensures i.Some? && status.PaymentRefused? ==>
                Snapshot() == S.ApplyCancellation(old(Snapshot()), i.value, info.id) && deferred.None?
      ensures i.Some? && status.PaymentDone? && Inv(old(Snapshot())) ==>
                C.Answers(old(Snapshot()), w, i.value, info, now, Snapshot(), deferred)
    {
      deferred := None;
      if i.Some? && status.PaymentDone? {
        deferred := ApplySuccess(w, i.value, info, now);
      } else if i.Some? && status.PaymentRefused? {
        ApplyCancellation(i.value, info.id);
      }
    }

    // ---- Sweeps ----

    method SweepStaleTransaction(i: nat) returns (swept: bool)
      modifies this
      ensures Snapshot() == S.SweepStaleOne(old(Snapshot()), i)
      ensures swept <==> i in old(txs) && old(txs)[i].status == TxPending
      ensures Inv(old(Snapshot())) && swept ==>
                i in old(subs) && C.ClosedAs(old(Snapshot()), Snapshot(), i, C.TimedOut(old(txs)[i]))
    {
      if Inv(Snapshot()) {
        C.SweepAnswers(Snapshot(), i);
      }
      if i !in txs || txs[i].status != TxPending {
        return false;
      }
      SaveTransaction(i, txs[i].(status := TxCanceled, metadata := txs[i].metadata.(ttlExpired := true)));
      ReleaseOrderResources(i);
      swept := true;
    }

    /** `stale` is what the candidate query answered. */
    method SweepStalePendingTransactions(stale: seq<nat>, moment: Moment) returns (swept: nat)
      requires StaleBatch(Snapshot(), stale, moment)
      modifies this
      ensures Snapshot() == SweepStaleAll(old(Snapshot()), stale) && swept == |stale|
      ensures forall i <- stale :: i in txs && txs[i].status == TxCanceled && txs[i].metadata.ttlExpired
      ensures forall i <- old(txs) :: i !in stale ==> i in txs && txs[i] == old(txs)[i]
    {
      ghost var before := Snapshot();
      swept := 0;
      for k := 0 to |stale|
        invariant Snapshot() == SweepStaleAll(before, stale[..k]) && swept == k
      {
        StaleTurn(before, stale, moment, k);
        var done := SweepStaleTransaction(stale[k]);
        if done {
          swept := swept + 1;
        }
      }
      assert stale[..|stale|] == stale;
      SweepStaleRows(before, stale);
    }

    /** Sums the token rows of the subscription one by one, clears them, and credits what was not used. */
    method CreditUnusedSessions(i: nat)
      requires i in subs
      modifies `tokens, `deposits, `journal
      ensures Snapshot() == S.CreditUnusedSessions(old(Snapshot()), i)
      ensures subs[i].price >= 0 && A.Accounted(old(Snapshot()), i) ==> A.CreditIsPaid(old(Snapshot()), Snapshot(), i)
    {
      ghost var before := Snapshot();
      SettleTokens(i);
      if before.subs[i].price >= 0 && A.Accounted(before, i) {
        A.CreditAnswers(before, i);
      }
    }

    method SettleTokens(i: nat)
      requires i in subs
      modifies `tokens, `deposits, `journal
      ensures Snapshot() == S.CreditUnusedSessions(old(Snapshot()), i)
    {
      ghost var before := Snapshot();
      var used := UsedSessions(i);
      var credit := S.CreditFor(subs[i].price, subs[i].basePrice, used);
      ClearRemaining(i);
      if credit > 0 {
        PostCredit(i, subs[i].parent, credit);
      }
      CreditRows(before, i, credit, tokens, deposits, journal);
    }

    method UsedSessions(i: nat) returns (used: int)
      ensures var rows := S.TokenRowsOf(tokens, i);
              var spent := S.GrantedSum(tokens, rows) - S.RemainingSum(tokens, rows);
              used == if spent > 0 then spent else 0
    {
      var granted, left := SumTokens(i);
      used := if granted - left > 0 then granted - left else 0;
    }

    method SumTokens(i: nat) returns (granted: int, left: int)
      ensures granted == S.GrantedSum(tokens, S.TokenRowsOf(tokens, i))
      ensures left == S.RemainingSum(tokens, S.TokenRowsOf(tokens, i))
    {
      granted, left := 0, 0;
      var rows := S.TokenRowsOf(tokens, i);
      var rest := rows;
      while rest != {}
        invariant rest <= rows
        invariant granted + S.GrantedSum(tokens, rest) == S.GrantedSum(tokens, rows)
        invariant left + S.RemainingSum(tokens, rest) == S.RemainingSum(tokens, rows)
      {
        var k :| k in rest;
        BillingKeepsFulfil.GrantedSumStep(tokens, rest, k);
        BillingKeepsFulfil.RemainingSumStep(tokens, rest, k);
        granted, left := granted + tokens[k].granted, left + tokens[k].remaining;
        rest := rest - {k};
      }
    }

    method ClearRemaining(i: nat)
      modifies `tokens
      ensures tokens == S.ClearRemaining(old(tokens), i)
    {
      tokens := map k <- tokens :: if k.order == i then tokens[k].(remaining := 0) else tokens[k];
    }

    /** Opens the deposit if there is none; a second credit for one subscription is refused by the journal. */
    method PostCredit(i: nat, parent: int, credit: int)
      requires credit > 0
      modifies `deposits, `journal
      ensures journal == if Posted(old(journal), OfSubscription(i), SubscriptionExpiryCredit) then old(journal)
                         else old(journal) + [DepositEntry(parent, credit, SubscriptionExpiryCredit, OfSubscription(i))]
      ensures deposits == Credited(old(deposits), parent,
                                   if Posted(old(journal), OfSubscription(i), SubscriptionExpiryCredit) then 0 else credit)
    {
      if parent !in deposits {
        deposits := deposits[parent := 0];
      }
      if Posted(journal, OfSubscription(i), SubscriptionExpiryCredit) {
        return;
      }
      journal := journal + [DepositEntry(parent, credit, SubscriptionExpiryCredit, OfSubscription(i))];
      deposits := deposits[parent := deposits[parent] + credit];
    }

    method CancelLiveEnrollments(s: nat)
      modifies `enrs
      ensures enrs == S.CancelLive(old(enrs), s)
    {
      enrs := map k <- enrs :: if k.order == s && Live(enrs[k]) then enrs[k].(status := EnrollmentCanceled) else enrs[k];
    }

    method ExpireSubscription(i: nat, moment: Moment) returns (swept: bool)
      modifies `subs, `enrs, `tokens, `deposits, `journal
      ensures Snapshot() == S.ExpireOne(old(Snapshot()), i, moment)
      ensures swept <==> S.Expirable(old(Snapshot()), i, moment)
      ensures Inv(old(Snapshot())) ==> A.ExpiryIs(old(Snapshot()), i, moment, Snapshot())
    {
      if Inv(Snapshot()) {
        A.ExpiryAnswers(Snapshot(), i, moment);
      }
      if !S.Expirable(Snapshot(), i, moment) {
        return false;
      }
      SaveSubscription(i, subs[i].(status := SubExpired));
      CancelLiveEnrollments(i);
      CreditUnusedSessions(i);
      swept := true;
    }

    /** `due` is what the candidate query answered. */
    method SweepExpiredSubscriptions(due: seq<nat>, moment: Moment) returns (swept: nat)
      requires ExpiredBatch(Snapshot(), due, moment)
      modifies this
      ensures Snapshot() == ExpireAll(old(Snapshot()), due, moment) && swept == |due|
      ensures subs == map i <- old(subs) :: if i in due then old(subs)[i].(status := SubExpired) else old(subs)[i]
      ensures Inv(old(Snapshot())) ==> forall i <- due :: A.IsCredited(Snapshot(), i)
    {
      ghost var before := Snapshot();
      swept := ExpireEach(due, moment);
      if Inv(before) {
        A.BatchIsCredited(before, due, moment);
      }
    }

    method ExpireEach(due: seq<nat>, moment: Moment) returns (swept: nat)
      requires ExpiredBatch(Snapshot(), due, moment)
      modifies this
      ensures Snapshot() == ExpireAll(old(Snapshot()), due, moment) && swept == |due|
      ensures subs == map i <- old(subs) :: if i in due then old(subs)[i].(status := SubExpired) else old(subs)[i]
    {
      ghost var before := Snapshot();
      swept := 0;
      for k := 0 to |due|
        invariant Snapshot() == ExpireAll(before, due[..k], moment) && swept == k
      {
        ExpiredTurn(before, due, moment, k);
        var done := ExpireSubscription(due[k], moment);
        if done {
          swept := swept + 1;
        }
      }
      assert due[..|due|] == due;
      EndedExpires(before, due, moment);
      ExpireRows(before, due, moment);
    }

    // ---- Tokens and attendance ----

    method MoveToken(m: nat, delta: int, debited: bool)
      requires m in marks && marks[m].seat in tokens
      modifies `tokens, `marks
      ensures Snapshot() == S.MoveToken(old(Snapshot()), m, delta, debited)
    {
      var seat := marks[m].seat;
      tokens := tokens[seat := tokens[seat].(remaining := tokens[seat].remaining + delta)];
      marks := marks[m := marks[m].(debited := debited)];
    }

    method DebitToken(m: nat, now: Moment) returns (error: Option<S.TokenError>)
      requires S.Linked(Snapshot())
      modifies `tokens, `marks
      ensures match S.DebitToken(old(Snapshot()), m, now)
              case Success(db) => Snapshot() == db && error == None
              case Failure(e) => Snapshot() == old(Snapshot()) && error == Some(e)
      ensures error == None ==> E.Stamped(old(Snapshot()), Snapshot(), m, true) && E.TokensConserved(old(Snapshot()), Snapshot())
      ensures A.DebitIs(old(Snapshot()), m, now, Snapshot(), error)
    {
      A.DebitAnswers(Snapshot(), m, now);
      if S.DebitToken(Snapshot(), m, now).Success? {
        E.DebitEffect(Snapshot(), m, now);
      }
      if m !in marks {
        return Some(S.AttendanceNotFound);
      }
      if marks[m].debited {
        return None;
      }
      if marks[m].status != Attended {
        return Some(S.AttendanceNotDebitable);
      }
      var seat := marks[m].seat;
      if enrs[seat].status != Enrolled {
        return Some(S.EnrollmentNotEnrolled);
      }
      var subscription := subs[seat.order];
      var expired := subscription.window.Some? && subscription.window.value.expiresAt < now;
      if subscription.status != SubActive || expired {
        return Some(S.SubscriptionNotSpendable);
      }
      if seat !in tokens {
        return Some(S.SlotBalanceNotFound);
      }
      if tokens[seat].remaining <= 0 {
        return Some(S.InsufficientTokens);
      }
      MoveToken(m, -1, true);
      error := None;
    }

    method RefundToken(m: nat) returns (error: Option<S.TokenError>)
      requires S.Linked(Snapshot())
      modifies `tokens, `marks
      ensures match S.RefundToken(old(Snapshot()), m)
              case Success(db) => Snapshot() == db && error == None
              case Failure(e) => Snapshot() == old(Snapshot()) && error == Some(e)
      ensures error == None ==> E.Stamped(old(Snapshot()), Snapshot(), m, false) && E.TokensConserved(old(Snapshot()), Snapshot())
      ensures A.GiveBackIs(old(Snapshot()), m, Snapshot(), error)
    {
      A.GiveBackAnswers(Snapshot(), m);
      if S.RefundToken(Snapshot(), m).Success? {
        E.RefundEffect(Snapshot(), m);
      }
      if m !in marks {
        return Some(S.AttendanceNotFound);
      }
      if !marks[m].debited {
        return None;
      }
      var seat := marks[m].seat;
      if subs[seat.order].status != SubActive {
        return Some(S.TokenNotRefundable);
      }
      if seat !in tokens {
        return Some(S.SlotBalanceNotFound);
      }
      MoveToken(m, 1, false);
      error := None;
    }

    /** Status and token move together: when the token cannot move, the status stays as it was. */
    method SetAttendanceStatus(m: nat, status: AttendanceStatus, now: Moment) returns (error: Option<S.TokenError>)
      requires S.Linked(Snapshot())
      modifies this
      ensures match S.SetAttendanceStatus(old(Snapshot()), m, status, now)
              case Success(db) => Snapshot() == db && error == None
              case Failure(e) => Snapshot() == old(Snapshot()) && error == Some(e)
      ensures Inv(old(Snapshot())) ==> A.StatusIs(old(Snapshot()), m, status, now, Snapshot(), error)
    {
      if Inv(Snapshot()) {
        A.StatusAnswers(Snapshot(), m, status, now);
      }
      if m !in marks {
        return Some(S.AttendanceNotFound);
      }
      if marks[m].status == status {
        return None;
      }
      var before := Snapshot();
      var wasDebited := marks[m].debited;
      RenameMark(m, status);
      error := None;
      if status == Attended {
        error := DebitToken(m, now);
      } else if wasDebited {
        error := RefundToken(m);
      }
      if error.Some? {
        RollBack(before);
      }
    }

    method RenameMark(m: nat, status: AttendanceStatus)
      requires m in marks && S.Linked(Snapshot())
      modifies `marks
      ensures Snapshot() == old(Snapshot()).(marks := old(marks)[m := old(marks)[m].(status := status)])
      ensures S.Linked(Snapshot())
    {
      marks := marks[m := marks[m].(status := status)];
    }

    method OpenLesson(seat: SeatKey, date: int)
      modifies `nextMark, `marks
      ensures Snapshot() == S.OpenMark(old(Snapshot()), seat, date)
    {
      if seat in enrs && enrs[seat].status == Enrolled && !(exists m <- marks :: marks[m].seat == seat && marks[m].date == date) {
        marks := marks[nextMark := Attendance(seat, date, Attended, false)];
        nextMark := nextMark + 1;
      }
    }

    // ---- Refunds ----

    method CloseRefund(i: nat, note: RefundNote)
      requires i in txs
      modifies `txs
      ensures Snapshot() == S.CloseRefund(old(Snapshot()), i, note)
    {
      var t := txs[i];
      if t.requiresCompensation {
        SaveTransaction(i, S.Unflagged(t, note));
      }
    }

    /** Reserves the refund before the network call; without a confirmed payment there is nothing to send back. */
    method ClaimRefund(job: nat, i: nat, moment: Moment)
      modifies `txs, `jobs
      ensures Snapshot() == S.ClaimRefund(old(Snapshot()), job, i, moment)
      ensures if old(job !in jobs && S.Claimable(Snapshot(), i, moment))
              then E.Claimed(old(Snapshot()), Snapshot(), job, i, moment) else Snapshot() == old(Snapshot())
    {
      E.ClaimEffect(Snapshot(), job, i, moment);
      if job in jobs || !S.Claimable(Snapshot(), i, moment) {
        return;
      }
      SaveTransaction(i, txs[i].(claimedUntil := Some(moment + REFUND_CLAIM_TTL)));
      if txs[i].externalId.None? {
        CloseRefund(i, RefundFailed);
      } else {
        jobs := jobs[job := RefundJob(i, txs[i].externalId.value, txs[i].amount, NoAnswer(false))];
      }
    }

    method SendRefund(job: nat, answer: GatewayAnswer)
      modifies `calls, `jobs
      ensures Snapshot() == S.SendRefund(old(Snapshot()), job, answer)
    {
      if job in jobs {
        var j := jobs[job];
        calls := calls + [RefundCall(j.tx, RefundKey(j.tx), j.paymentId, j.amount, S.Takes(answer))];
        jobs := jobs[job := j.(answer := answer)];
      }
    }

    method SettleRefund(job: nat)
      modifies `jobs, `txs
      ensures Snapshot() == S.SettleRefund(old(Snapshot()), job) && job !in jobs
    {
      if job in jobs {
        var j := jobs[job];
        jobs := jobs - {job};
        if j.tx in txs {
          match j.answer
          case NoAnswer(_) =>
          case Accepted(id) => CloseRefund(j.tx, Refunded(id));
          case Rejected => CloseRefund(j.tx, RefundFailed);
        }
      }
    }

    /** One candidate of a tick; `issued` when the provider accepted the refund. */
    method RefundCandidate(job: nat, i: nat, answer: GatewayAnswer, moment: Moment) returns (issued: bool)
      requires job !in jobs
      modifies `txs, `jobs, `calls
      ensures Snapshot() == RefundOne(old(Snapshot()), job, i, answer, moment) && job !in jobs
      ensures issued == Issues(old(Snapshot()), i, answer, moment)
      ensures A.CandidateIs(old(Snapshot()), i, answer, moment, Snapshot())
    {
      A.CandidateAnswers(Snapshot(), job, i, answer, moment);
      issued := Issues(Snapshot(), i, answer, moment);
      ClaimRefund(job, i, moment);
      SendRefund(job, answer);
      SettleRefund(job);
    }

    method RefundEach(job: nat, candidates: seq<nat>, answers: map<nat, GatewayAnswer>, moment: Moment) returns (issued: nat)
      requires job !in jobs
      modifies `txs, `jobs, `calls
      ensures Tick(Snapshot(), issued) == RefundAll(old(Snapshot()), job, candidates, answers, moment) && job !in jobs
    {
      ghost var whole, here := RefundAll(Snapshot(), job, candidates, answers, moment), Snapshot();
      issued := 0;
      var k := 0;
      var stopped := false;
      assert candidates[0..] == candidates;
      while k < |candidates| && !stopped
        invariant k <= |candidates| && job !in jobs && here == Snapshot()
        invariant whole == if stopped then Tick(here, issued) else Counted(issued, RefundAll(here, job, candidates[k..], answers, moment))
      {
        assert candidates[k..][0] == candidates[k] && candidates[k..][1..] == candidates[k + 1..];
        RefundAllStep(here, job, candidates[k..], answers, moment);
        var i, answer := candidates[k], AnswerFor(answers, candidates[k]);
        stopped := Stops(Snapshot(), i, answers, moment);
        var one := RefundCandidate(job, i, answer, moment);
        here := RefundOne(here, job, i, answer, moment);
        issued := issued + if one then 1 else 0;
        k := k + 1;
      }
    }

    /** One tick over what the candidate query answered; a network failure ends it early. */
    method IssuePendingRefunds(job: nat, candidates: seq<nat>, answers: map<nat, GatewayAnswer>, moment: Moment) returns (issued: nat)
      requires job !in jobs && RefundBatch(Snapshot(), candidates)
      modifies this
      ensures Tick(Snapshot(), issued) == RefundAll(old(Snapshot()), job, candidates, answers, moment) && job !in jobs
      ensures exists n :: A.TickIs(old(Snapshot()), candidates, answers, moment, Tick(Snapshot(), issued), n)
    {
      ghost var n := A.TickAnswers(Snapshot(), job, candidates, answers, moment);
      issued := RefundEach(job, candidates, answers, moment);
    }

    // ---- Every service call is a step of the engine ----

    method Perform(a: Action)
      modifies this
      ensures Snapshot() == Exec(old(Snapshot()), a)
    {
      if a.Debit? || a.GiveBack? || a.SetStatus? || a.OpenLesson? {
        PerformOnMarks(a);
      } else {
        PerformOnOrders(a);
      }
    }

    method PerformOnMarks(a: Action)
      requires a.Debit? || a.GiveBack? || a.SetStatus? || a.OpenLesson?
      modifies this
      ensures Snapshot() == Exec(old(Snapshot()), a)
    {
      match a
      case Debit(m, now) =>
        if IsLinked() {
          var _ := DebitToken(m, now);
        }
      case GiveBack(m) =>
        if IsLinked() {
          var _ := RefundToken(m);
        }
      case SetStatus(m, status, now) =>
        if IsLinked() {
          var _ := SetAttendanceStatus(m, status, now);
        }
      case OpenLesson(seat, date) => OpenLesson(seat, date);
    }

    method PerformOnOrders(a: Action)
      requires !(a.Debit? || a.GiveBack? || a.SetStatus? || a.OpenLesson?)
      modifies this
      ensures Snapshot() == Exec(old(Snapshot()), a)
    {
      match a
      case PlaceAnOrder(w, req, now) =>
        if WorldOk(w) {
          var _ := CreatePayment(w, req, now);
        }
      case PaymentSucceeded(w, i, info, now) =>
        if WorldOk(w) {
          var _ := ApplySuccess(w, i, info, now);
        }
      case PaymentCanceled(i, paymentId) => ApplyCancellation(i, paymentId);
      case SweepStale(i, moment) =>
        if S.StalePending(Snapshot(), i, moment) {
          var _ := SweepStaleTransaction(i);
        }
      case SweepExpired(i, moment) => var _ := ExpireSubscription(i, moment);
      case Claim(job, i, moment) => ClaimRefund(job, i, moment);
      case Send(job, answer) => SendRefund(job, answer);
      case Settle(job) => SettleRefund(job);
    }

    predicate IsLinked()
      reads this
      ensures IsLinked() == S.Linked(Snapshot())
    {
      (forall m <- marks :: marks[m].seat in enrs) && (forall k <- enrs :: k.order in subs)
    }

    /** Any sequence of calls on these tables is a run of the engine, so everything proved of runs holds of them. */
    method PerformAll(actions: seq<Action>)
      modifies this
      ensures Snapshot() == Run(old(Snapshot()), actions)
      ensures Inv(old(Snapshot())) ==> Inv(Snapshot())
    {
      for k := 0 to |actions|
        invariant Run(old(Snapshot()), actions) == Run(Snapshot(), actions[k..])
      {
        assert actions[k..][1..] == actions[k + 1..];
        Perform(actions[k]);
      }
      if Inv(old(Snapshot())) {
        RunKeepsInv(old(Snapshot()), actions);
      }
    }
  }

  /** The receipt of an accepted order and the tables it left. */
  function Placed(r: Result<Receipt, S.CheckoutError>, after: Db): Result<S.Placed, S.CheckoutError> {
    match r
    case Success(receipt) => Success(S.Placed(after, receipt.order, receipt.confirmed))
    case Failure(e) => Failure(e)
  }

  // ---- A loop that stops at a failure fails as a whole ----

  lemma {:induction false} FirstFailureStays(w: World, ids: seq<int>, k: nat)
    requires WorldOk(w) && 0 < k <= |ids| && S.FirstLesson(w, ids[..k]).Failure?
    ensures S.FirstLesson(w, ids) == S.FirstLesson(w, ids[..k])
    decreases |ids| - k
  {
    if k < |ids| {
      assert ids[..k + 1][..k] == ids[..k];
      FirstFailureStays(w, ids, k + 1);
    } else {
      assert ids[..k] == ids;
    }
  }

  lemma BookNext(enrs: map<SeatKey, Enrollment>, w: World, i: nat, student: int, slots: seq<int>, now: Moment, k: nat)
    requires k < |slots| && S.BookSlots(enrs, w, i, student, slots[..k], now).Success?
    ensures S.BookSlots(enrs, w, i, student, slots[..k + 1], now)
         == S.BookSlot(S.BookSlots(enrs, w, i, student, slots[..k], now).value, w, i, student, slots[k], now)
  {
    assert slots[..k + 1][..k] == slots[..k];
  }

  lemma {:induction false} BookFailureStays(enrs: map<SeatKey, Enrollment>, w: World, i: nat, student: int, slots: seq<int>, now: Moment, k: nat)
    requires k <= |slots| && S.BookSlots(enrs, w, i, student, slots[..k], now).Failure?
    ensures S.BookSlots(enrs, w, i, student, slots, now) == S.BookSlots(enrs, w, i, student, slots[..k], now)
    decreases |slots| - k
  {
    if k < |slots| {
      assert slots[..k + 1][..k] == slots[..k];
      BookFailureStays(enrs, w, i, student, slots, now, k + 1);
    } else {
      assert slots[..k] == slots;
    }
  }

  lemma SeatsAreHeld(enrs: map<SeatKey, Enrollment>, w: World, s: nat, ids: seq<int>, now: Moment)
    requires S.EnrollProblem(enrs, w, s, ids, now, 0).None?
    ensures forall k :: 0 <= k < |ids| ==> SeatKey(s, ids[k]) in enrs && enrs[SeatKey(s, ids[k])].status == Held
  {
    NoProblemIffReady(enrs, w, s, ids, now, 0);
    forall k | 0 <= k < |ids| ensures SeatReady(enrs, w, s, ids[k], now) {
    }
  }

  lemma PrepaidRows(db: Db, i: nat, s: nat, window: Window, txs: map<nat, Transaction>, subs: map<nat, Subscription>,
                    enrs: map<SeatKey, Enrollment>, tokens: map<SeatKey, TokenRow>)
    requires i in db.txs && db.txs[i].slots.SlotList?
    requires txs == db.txs[i := db.txs[i].(status := TxSucceeded, metadata := db.txs[i].metadata.(paidFromDeposit := true))]
    requires subs == if s in db.subs && db.subs[s].status == SubPending
                     then db.subs[s := db.subs[s].(status := SubActive, window := Some(window))] else db.subs
    requires enrs == S.EnrollHeld(db.enrs, s) && tokens == S.GrantTokens(db.tokens, s, db.txs[i].slots.ids)
    ensures S.PrepaidDone(db, i, s, window) == db.(txs := txs, subs := subs, enrs := enrs, tokens := tokens)
  {
  }

  lemma FulfillPrepaidShape(db: Db, w: World, i: nat, s: nat, first: Calendar.Date)
    requires i in db.txs && WorldOk(w) && db.txs[i].subscription == Some(s)
    requires db.txs[i].slots.SlotList? && db.txs[i].slots.ids != []
    requires S.FirstLesson(w, db.txs[i].slots.ids) == Success(first)
    ensures Calendar.Valid(first) && Calendar.HasNextMonth(first)
    ensures S.FulfillPrepaid(db, w, i) == Success(S.PrepaidDone(db, i, s, S.WindowFrom(first)))
  {
  }

  lemma InsertedRows(db: Db, parent: int, plan: Plan, slots: seq<int>, enrs: map<SeatKey, Enrollment>, applied: int, now: Moment,
                     subs: map<nat, Subscription>, txs: map<nat, Transaction>, deposits: map<int, int>, journal: seq<DepositEntry>)
    requires applied > 0 ==> parent in db.deposits
    requires subs == db.subs[db.next := Subscription(parent, plan.price, plan.basePrice, SubPending, None)]
    requires txs == db.txs[db.next := S.NewTransaction(parent, db.next, plan.price, applied, slots, now)]
    requires deposits == if applied > 0 then db.deposits[parent := db.deposits[parent] - applied] else db.deposits
    requires journal == if applied > 0 then db.journal + [DepositEntry(parent, -applied, CheckoutSpend, OfTransaction(db.next))] else db.journal
    ensures S.InsertOrder(db, parent, plan, slots, enrs, applied, now)
         == db.(next := db.next + 1, subs := subs, txs := txs, enrs := enrs, deposits := deposits, journal := journal)
  {
  }

  lemma PlaceOrderShape(db: Db, w: World, req: S.CheckoutRequest, plan: Plan, slots: seq<int>, now: Moment, placed: Db)
    requires WorldOk(w) && plan.price >= 0
    requires S.BookSlots(db.enrs, w, db.next, req.student, slots, now).Success?
    requires var applied := S.DepositShare(db.deposits, req.parent, plan.price, req.useDeposit);
             placed == S.InsertOrder(db, req.parent, plan, slots, S.BookSlots(db.enrs, w, db.next, req.student, slots, now).value, applied, now)
    ensures var applied := S.DepositShare(db.deposits, req.parent, plan.price, req.useDeposit);
            db.next in placed.txs
            && S.PlaceOrder(db, w, req, plan, slots, now)
               == if plan.price - applied != 0 then Success(S.Placed(placed, db.next, false))
                  else match S.FulfillPrepaid(placed, w, db.next)
                       case Failure(e) => Failure(e)
                       case Success(done) => Success(S.Placed(done, db.next, true))
  {
  }

  lemma SaveTwice(db: Db, i: nat, t: Transaction, u: Transaction)
    ensures S.SetTx(S.SetTx(db, i, t), i, u) == S.SetTx(db, i, u)
  {
    assert db.txs[i := t][i := u] == db.txs[i := u];
  }

  lemma VerifiedRows(db: Db, w: World, i: nat, t: Transaction, s: nat, ids: seq<int>, now: Moment,
                     subs: map<nat, Subscription>, enrs: map<SeatKey, Enrollment>, tokens: map<SeatKey, TokenRow>)
    requires WorldOk(w) && ids != [] && S.FirstLesson(w, ids).Success? && s in db.subs && db.subs[s].status == SubPending
    requires S.EnrollProblem(db.enrs, w, s, ids, now, 0).None?
    requires subs == db.subs[s := db.subs[s].(status := SubActive, window := Some(S.WindowFrom(S.FirstLesson(w, ids).value)))]
    requires enrs == S.EnrollSlots(db.enrs, s, ids) && tokens == S.GrantTokens(db.tokens, s, ids)
    ensures S.ApplyVerifiedSuccess(db, w, i, t, s, ids, now)
         == (S.SetTx(db, i, t).(subs := subs, enrs := enrs, tokens := tokens), None)
  {
  }

  function Undone(db: Db, i: nat, t: Transaction, s: nat, reason: Reason): (r: Db)
    requires s in db.subs
    ensures i in r.txs
  {
    S.SetTx(db, i, S.MarkForCompensation(t, reason)).(subs := db.subs[s := db.subs[s].(status := SubCanceled, window := None)])
  }

  lemma UndoneRows(db: Db, w: World, i: nat, t: Transaction, s: nat, ids: seq<int>, now: Moment, reason: Reason)
    requires WorldOk(w) && ids != [] && S.FirstLesson(w, ids).Success? && s in db.subs && db.subs[s].status == SubPending
    requires S.EnrollProblem(db.enrs, w, s, ids, now, 0) == Some(reason)
    ensures var active := db.subs[s].(status := SubActive, window := Some(S.WindowFrom(S.FirstLesson(w, ids).value)));
            var undone := Undone(S.SetTx(db, i, t).(subs := db.subs[s := active]), i, t, s, reason);
            S.ApplyVerifiedSuccess(db, w, i, t, s, ids, now) == (S.ReleaseOrderResources(undone, i), Some(reason))
  {
    var active := db.subs[s].(status := SubActive, window := Some(S.WindowFrom(S.FirstLesson(w, ids).value)));
    var canceled := db.subs[s].(status := SubCanceled, window := None);
    assert db.subs[s := active][s := canceled] == db.subs[s := canceled];
    SaveTwice(db, i, t, S.MarkForCompensation(t, reason));
    assert Undone(S.SetTx(db, i, t).(subs := db.subs[s := active]), i, t, s, reason) == Undone(db, i, t, s, reason);
  }

  function Credited(deposits: map<int, int>, parent: int, credit: int): map<int, int> {
    var ready := if parent in deposits then deposits else deposits[parent := 0];
    ready[parent := ready[parent] + credit]
  }

  lemma CreditRows(db: Db, i: nat, credit: int, tokens: map<SeatKey, TokenRow>, deposits: map<int, int>, journal: seq<DepositEntry>)
    requires i in db.subs && tokens == S.ClearRemaining(db.tokens, i)
    requires var rows := S.TokenRowsOf(db.tokens, i);
             var spent := S.GrantedSum(db.tokens, rows) - S.RemainingSum(db.tokens, rows);
             credit == S.CreditFor(db.subs[i].price, db.subs[i].basePrice, if spent > 0 then spent else 0)
    requires var posted := Posted(db.journal, OfSubscription(i), SubscriptionExpiryCredit);
             var parent := db.subs[i].parent;
             if credit == 0 then deposits == db.deposits && journal == db.journal
             else deposits == Credited(db.deposits, parent, if posted then 0 else credit)
                  && journal == if posted then db.journal
                                else db.journal + [DepositEntry(parent, credit, SubscriptionExpiryCredit, OfSubscription(i))]
    ensures S.CreditUnusedSessions(db, i) == db.(tokens := tokens, deposits := deposits, journal := journal)
  {
    var parent := db.subs[i].parent;
    var ready := if parent in db.deposits then db.deposits else db.deposits[parent := 0];
    assert ready[parent := ready[parent] + 0] == ready;
  }
}
