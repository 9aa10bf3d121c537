/**
 Runs of the billing engine: any sequence of service steps, with any schedule,
 any payments and any clock readings, from an empty database.
 */
module BillingRuns {
  import opened Wrappers
  import opened BillingModel
  import opened BillingSteps
  import opened BillingInvariant
  import opened BillingKeepsClose
  import opened BillingKeepsFulfil
  import opened BillingKeepsCheckout
  import opened BillingKeepsTokens
  import opened Sums

  datatype Action =
    | PlaceAnOrder(w: World, req: CheckoutRequest, now: Moment)
    | PaymentSucceeded(w: World, tx: nat, info: PaymentInfo, now: Moment)
    | PaymentCanceled(tx: nat, paymentId: string)
    | SweepStale(tx: nat, moment: Moment)
    | SweepExpired(sub: nat, moment: Moment)
    | Debit(mark: nat, now: Moment)
    | GiveBack(mark: nat)
    | SetStatus(mark: nat, status: AttendanceStatus, now: Moment)
    | OpenLesson(seat: SeatKey, date: int)
    | Claim(job: nat, tx: nat, moment: Moment)
    | Send(job: nat, answer: GatewayAnswer)
    | Settle(job: nat)

  /** A call that raises rolls back. */
  ghost function Exec(db: Db, a: Action): Db {
    match a
    case PlaceAnOrder(w, req, now) =>
      if WorldOk(w) && Checkout(db, w, req, now).Success? then Checkout(db, w, req, now).value.db else db
    case PaymentSucceeded(w, i, info, now) => if WorldOk(w) then ApplySuccess(db, w, i, info, now).0 else db
    case PaymentCanceled(i, paymentId) => ApplyCancellation(db, i, paymentId)
    case SweepStale(i, moment) => if StalePending(db, i, moment) then SweepStaleOne(db, i) else db
    case SweepExpired(i, moment) => ExpireOne(db, i, moment)
    case Debit(m, now) => if Linked(db) && DebitToken(db, m, now).Success? then DebitToken(db, m, now).value else db
    case GiveBack(m) => if Linked(db) && RefundToken(db, m).Success? then RefundToken(db, m).value else db
    case SetStatus(m, status, now) =>
      if Linked(db) && SetAttendanceStatus(db, m, status, now).Success?
      then SetAttendanceStatus(db, m, status, now).value else db
    case OpenLesson(seat, date) => OpenMark(db, seat, date)
    case Claim(job, i, moment) => ClaimRefund(db, job, i, moment)
    case Send(job, answer) => SendRefund(db, job, answer)
    case Settle(job) => SettleRefund(db, job)
  }

  ghost function Run(db: Db, actions: seq<Action>): Db
    decreases |actions|
  {
    if actions == [] then db else Run(Exec(db, actions[0]), actions[1..])
  }

  // ---- Confirmation keeps the invariant ----

  /** Transaction and subscription are pending together. */
  lemma PendingTogether(db: Db, i: nat)
    requires Orders(db) && i in db.txs
    ensures i in db.subs && TxFits(i, db.txs[i], db.subs[i])
    ensures db.txs[i].status == TxPending <==> db.subs[i].status == SubPending
  {
    assert OrderOk(db, i);
  }

  predicate HeldBy(enrs: map<SeatKey, Enrollment>, i: nat, slot: int) {
    SeatKey(i, slot) in enrs && enrs[SeatKey(i, slot)].status == Held
  }

  /** Seats of the slot that other orders take. */
  function OthersAt(enrs: map<SeatKey, Enrollment>, i: nat, slot: int, now: Moment): set<SeatKey> {
    set k <- enrs | k.slot == slot && k.order != i && Occupies(enrs[k], now)
  }

  lemma OthersAreSeats(enrs: map<SeatKey, Enrollment>, i: nat, slot: int, now: Moment)
    ensures Seats(enrs, slot, now) - {SeatKey(i, slot)} == OthersAt(enrs, i, slot, now)
  {
  }

  /** The check each seat of an order must pass before it is enrolled: still held, and room besides the others. */
  predicate SeatReady(enrs: map<SeatKey, Enrollment>, w: World, i: nat, slot: int, now: Moment) {
    && HeldBy(enrs, i, slot) && slot in w.capacity
    && |OthersAt(enrs, i, slot, now)| < w.capacity[slot]
  }

  lemma {:induction false} NoProblemIffReady(enrs: map<SeatKey, Enrollment>, w: World, i: nat, ids: seq<int>, now: Moment, k: nat)
    requires k <= |ids|
    ensures EnrollProblem(enrs, w, i, ids, now, k).None? <==> forall n :: k <= n < |ids| ==> SeatReady(enrs, w, i, ids[n], now)
    decreases |ids| - k
  {
    if k < |ids| {
      OthersAreSeats(enrs, i, ids[k], now);
      NoProblemIffReady(enrs, w, i, ids, now, k + 1);
    }
  }

  lemma ReadyMeansHeld(db: Db, w: World, i: nat, ids: seq<int>, now: Moment)
    requires EnrollProblem(db.enrs, w, i, ids, now, 0).None?
    ensures AllHeld(db, i, ids)
  {
    NoProblemIffReady(db.enrs, w, i, ids, now, 0);
    forall s | s in ids ensures SeatReady(db.enrs, w, i, s, now) {
    }
  }

  lemma UndoneIsReleased(db: Db, i: nat, t: Transaction)
    requires i in db.subs && db.subs[i].status == SubPending && db.subs[i].window.None?
    requires t.subscription == Some(i)
    ensures var marked := SetTx(db, i, t);
            ReleaseOrderResources(marked.(subs := marked.subs[i := marked.subs[i].(status := SubCanceled, window := None)]), i)
            == ReleaseOrderResources(marked, i)
  {
  }

  lemma EnrollSlotsIsEnrollHeld(db: Db, i: nat)
    requires Orders(db) && i in db.txs && db.txs[i].slots.SlotList?
    ensures EnrollSlots(db.enrs, i, db.txs[i].slots.ids) == EnrollHeld(db.enrs, i)
  {
    assert OrderOk(db, i);
    forall k | k in db.enrs && k.order == i ensures k.slot in db.txs[i].slots.ids {
      assert k == SeatKey(i, k.slot);
    }
  }

  /** What one success notification can do to an order. */
  datatype Outcome =
    | Ignored
    | FlaggedLate(t: Transaction)
    | ClosedAs(t: Transaction)
    | FulfilledAs(t: Transaction, window: Window)

  ghost predicate Explains(db: Db, i: nat, after: Db, error: Option<Reason>, o: Outcome) {
    match o
    case Ignored => after == db && error.None? && (i in db.txs ==> db.txs[i].status != TxPending)
    case FlaggedLate(t) =>
      && Reflags(db, i, t) && db.txs[i].status != TxPending
      && after == SetTx(db, i, t) && error == Some(PaymentSucceededAfterExpiry)
    case ClosedAs(t) =>
      && Closes(db, i, t) && after == ReleaseOrderResources(SetTx(db, i, t), i)
      && error.Some? && error.value in {AmountMismatch, SlotRemoved, HoldLost, SeatsTakenAfterPayment}
      && t.requiresCompensation == (error.value != AmountMismatch)
      && t.status == (if error.value == AmountMismatch then TxFailed else TxSucceeded)
    case FulfilledAs(t, window) =>
      Fulfils(db, i, t) && after == Fulfilled(db, i, t, window) && error.None?
  }

  lemma VerifiedOutcome(db: Db, w: World, i: nat, t: Transaction, now: Moment) returns (o: Outcome)
    requires Orders(db) && WorldOk(w) && i in db.txs && db.txs[i].status == TxPending
    requires t == db.txs[i].(status := TxSucceeded, externalId := t.externalId) && t.externalId.Some?
    requires t.slots.SlotList? && t.slots.ids != []
    ensures var r := ApplyVerifiedSuccess(db, w, i, t, i, t.slots.ids, now); Explains(db, i, r.0, r.1, o)
    ensures !o.Ignored? && o.t.externalId == t.externalId
  {
    PendingTogether(db, i);
    match FirstLesson(w, t.slots.ids)
    case Failure(_) => o := ClosedAs(MarkForCompensation(t, SlotRemoved));
    case Success(first) =>
      match EnrollProblem(db.enrs, w, i, t.slots.ids, now, 0)
      case Some(r) =>
        o := UndoneOutcome(db, w, i, t, now, r);
      case None =>
        o := EnrolledOutcome(db, w, i, t, now);
  }

  lemma UndoneOutcome(db: Db, w: World, i: nat, t: Transaction, now: Moment, r: Reason) returns (o: Outcome)
    requires WorldOk(w) && i in db.txs && i in db.subs && TxFits(i, db.txs[i], db.subs[i]) && db.txs[i].status == TxPending
    requires t == db.txs[i].(status := TxSucceeded, externalId := t.externalId) && t.externalId.Some?
    requires FirstLesson(w, t.slots.ids).Success? && EnrollProblem(db.enrs, w, i, t.slots.ids, now, 0) == Some(r)
    ensures var a := ApplyVerifiedSuccess(db, w, i, t, i, t.slots.ids, now); Explains(db, i, a.0, a.1, o)
    ensures !o.Ignored? && o.t.externalId == t.externalId
  {
    ProblemReasons(db.enrs, w, i, t.slots.ids, now, 0);
    UndoneIsReleased(db, i, MarkForCompensation(t, r));
    o := ClosedAs(MarkForCompensation(t, r));
  }

  lemma EnrolledOutcome(db: Db, w: World, i: nat, t: Transaction, now: Moment) returns (o: Outcome)
    requires Orders(db) && WorldOk(w) && i in db.txs && i in db.subs && TxFits(i, db.txs[i], db.subs[i]) && db.txs[i].status == TxPending
    requires t == db.txs[i].(status := TxSucceeded, externalId := t.externalId) && t.externalId.Some?
    requires FirstLesson(w, t.slots.ids).Success? && EnrollProblem(db.enrs, w, i, t.slots.ids, now, 0).None?
    ensures var a := ApplyVerifiedSuccess(db, w, i, t, i, t.slots.ids, now); Explains(db, i, a.0, a.1, o)
    ensures !o.Ignored? && o.t.externalId == t.externalId
  {
    ReadyMeansHeld(db, w, i, t.slots.ids, now);
    EnrollSlotsIsEnrollHeld(db, i);
    o := FulfilledAs(t, WindowFrom(FirstLesson(w, t.slots.ids).value));
  }

  lemma {:induction false} ProblemReasons(enrs: map<SeatKey, Enrollment>, w: World, i: nat, ids: seq<int>, now: Moment, k: nat)
    requires k <= |ids|
    ensures var r := EnrollProblem(enrs, w, i, ids, now, k);
            r.Some? ==> r.value in {SlotRemoved, HoldLost, SeatsTakenAfterPayment}
    decreases |ids| - k
  {
    if k < |ids| {
      ProblemReasons(enrs, w, i, ids, now, k + 1);
    }
  }

  lemma SuccessOutcome(db: Db, w: World, i: nat, info: PaymentInfo, now: Moment) returns (o: Outcome)
    requires Orders(db) && WorldOk(w)
    ensures var r := ApplySuccess(db, w, i, info, now); Explains(db, i, r.0, r.1, o)
    ensures !o.Ignored? ==> o.t.externalId == Some(info.id)
  {
    if i !in db.txs {
      return Ignored;
    }
    PendingTogether(db, i);
    var t := db.txs[i].(externalId := Some(info.id));
    if t.status != TxPending {
      var late := t.status == TxCanceled && t.metadata.ttlExpired && !t.metadata.compensationRequired;
      o := if late then FlaggedLate(MarkForCompensation(t, PaymentSucceededAfterExpiry)) else Ignored;
    } else if info.currency != EXPECTED_CURRENCY || info.amount != t.amount {
      o := ClosedAs(t.(status := TxFailed, metadata := t.metadata.(reason := Some(AmountMismatch))));
    } else {
      o := VerifiedOutcome(db, w, i, t.(status := TxSucceeded), now);
    }
  }

  lemma SuccessKeepsInv(db: Db, w: World, i: nat, info: PaymentInfo, now: Moment)
    requires Inv(db) && WorldOk(w)
    ensures Inv(ApplySuccess(db, w, i, info, now).0)
  {
    var o := SuccessOutcome(db, w, i, info, now);
    match o
    case Ignored =>
    case FlaggedLate(t) => ReflagKeepsInv(db, i, t);
    case ClosedAs(t) => CloseKeepsInv(db, i, t);
    case FulfilledAs(t, window) => FulfilKeepsInv(db, i, t, window);
  }

  lemma CancellationKeepsInv(db: Db, i: nat, paymentId: string)
    requires Inv(db)
    ensures Inv(ApplyCancellation(db, i, paymentId))
  {
    if i in db.txs && db.txs[i].status == TxPending {
      PendingTogether(db, i);
      CloseKeepsInv(db, i, db.txs[i].(status := TxCanceled, externalId := Some(paymentId)));
    }
  }

  lemma SweepStaleKeepsInv(db: Db, i: nat)
    requires Inv(db)
    ensures Inv(SweepStaleOne(db, i))
  {
    if i in db.txs && db.txs[i].status == TxPending {
      PendingTogether(db, i);
      var t := db.txs[i];
      CloseKeepsInv(db, i, t.(status := TxCanceled, metadata := t.metadata.(ttlExpired := true)));
    }
  }

  lemma OrderStepKeepsInv(db: Db, a: Action)
    requires Inv(db) && (a.PlaceAnOrder? || a.PaymentSucceeded? || a.PaymentCanceled? || a.SweepStale? || a.SweepExpired?)
    ensures Inv(Exec(db, a))
  {
    match a
    case PlaceAnOrder(w, req, now) =>
      if WorldOk(w) && Checkout(db, w, req, now).Success? {
        CheckoutKeepsInv(db, w, req, now);
      }
    case PaymentSucceeded(w, i, info, now) =>
      if WorldOk(w) {
        SuccessKeepsInv(db, w, i, info, now);
      }
    case PaymentCanceled(i, paymentId) => CancellationKeepsInv(db, i, paymentId);
    case SweepStale(i, moment) => SweepStaleKeepsInv(db, i);
    case SweepExpired(i, moment) => ExpireKeepsInv(db, i, moment);
  }

  lemma TokenStepKeepsInv(db: Db, a: Action)
    requires Inv(db) && (a.Debit? || a.GiveBack? || a.SetStatus? || a.OpenLesson?)
    ensures Inv(Exec(db, a))
  {
    match a
    case Debit(m, now) =>
      if Linked(db) && DebitToken(db, m, now).Success? {
        DebitKeepsInv(db, m, now);
      }
    case GiveBack(m) =>
      if Linked(db) && RefundToken(db, m).Success? {
        RefundTokenKeepsInv(db, m);
      }
    case SetStatus(m, status, now) =>
      if Linked(db) && SetAttendanceStatus(db, m, status, now).Success? {
        SetStatusKeepsInv(db, m, status, now);
      }
    case OpenLesson(seat, date) => OpenMarkKeepsInv(db, seat, date);
  }

  lemma RefundStepKeepsInv(db: Db, a: Action)
    requires Inv(db) && (a.Claim? || a.Send? || a.Settle?)
    ensures Inv(Exec(db, a))
  {
    match a
    case Claim(job, i, moment) => ClaimKeepsInv(db, job, i, moment);
    case Send(job, answer) => SendKeepsInv(db, job, answer);
    case Settle(job) => SettleKeepsInv(db, job);
  }

  lemma ExecKeepsInv(db: Db, a: Action)
    requires Inv(db)
    ensures Inv(Exec(db, a))
  {
    if a.Debit? || a.GiveBack? || a.SetStatus? || a.OpenLesson? {
      TokenStepKeepsInv(db, a);
    } else if a.Claim? || a.Send? || a.Settle? {
      RefundStepKeepsInv(db, a);
    } else {
      OrderStepKeepsInv(db, a);
    }
  }

  lemma {:induction false} RunKeepsInv(db: Db, actions: seq<Action>)
    requires Inv(db)
    ensures Inv(Run(db, actions))
    decreases |actions|
  {
    if actions != [] {
      ExecKeepsInv(db, actions[0]);
      RunKeepsInv(Exec(db, actions[0]), actions[1..]);
    }
  }
}
