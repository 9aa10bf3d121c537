/**
 The billing services as functions from one committed database state to the
 next. A service that raises leaves the state as it was, because its database
 transaction rolls back; a service that only defers an error keeps its writes.
 */
module BillingSteps {
  import opened Wrappers
  import opened BillingModel
  import Calendar

  // ---- Sums over token rows ----

  ghost function GrantedSum(tokens: map<SeatKey, TokenRow>, rows: set<SeatKey>): int
    requires rows <= tokens.Keys
  {
    if rows == {} then 0
    else
      var k :| k in rows;
      tokens[k].granted + GrantedSum(tokens, rows - {k})
  }

  ghost function RemainingSum(tokens: map<SeatKey, TokenRow>, rows: set<SeatKey>): int
    requires rows <= tokens.Keys
  {
    if rows == {} then 0
    else
      var k :| k in rows;
      tokens[k].remaining + RemainingSum(tokens, rows - {k})
  }

  function TokenRowsOf(tokens: map<SeatKey, TokenRow>, order: nat): set<SeatKey> {
    set k <- tokens | k.order == order
  }

  // ---- Writes that touch many rows at once ----

  function CancelStaleHolds(enrs: map<SeatKey, Enrollment>, slot: int, now: Moment): map<SeatKey, Enrollment> {
    map k <- enrs :: if k.slot == slot && HoldStale(enrs[k], now) then enrs[k].(status := EnrollmentCanceled) else enrs[k]
  }

  function CancelLive(enrs: map<SeatKey, Enrollment>, order: nat): map<SeatKey, Enrollment> {
    map k <- enrs :: if k.order == order && Live(enrs[k]) then enrs[k].(status := EnrollmentCanceled) else enrs[k]
  }

  function EnrollHeld(enrs: map<SeatKey, Enrollment>, order: nat): map<SeatKey, Enrollment> {
    map k <- enrs :: if k.order == order && enrs[k].status == Held then enrs[k].(status := Enrolled) else enrs[k]
  }

  function GrantTokens(tokens: map<SeatKey, TokenRow>, order: nat, ids: seq<int>): (r: map<SeatKey, TokenRow>)
    ensures forall k :: k in r <==> k in tokens || (k.order == order && k.slot in ids)
    ensures forall k <- r :: r[k] == if k.order == order && k.slot in ids
                                     then TokenRow(TOKENS_PER_SLOT, TOKENS_PER_SLOT) else tokens[k]
  {
    if ids == [] then tokens
    else
      var last := |ids| - 1;
      assert forall x :: x in ids <==> x in ids[..last] || x == ids[last];
      GrantTokens(tokens, order, ids[..last])[SeatKey(order, ids[last]) := TokenRow(TOKENS_PER_SLOT, TOKENS_PER_SLOT)]
  }

  function ClearRemaining(tokens: map<SeatKey, TokenRow>, order: nat): map<SeatKey, TokenRow> {
    map k <- tokens :: if k.order == order then tokens[k].(remaining := 0) else tokens[k]
  }

  // ---- Giving an order's resources back ----

  function SetTx(db: Db, i: nat, t: Transaction): Db {
    db.(txs := db.txs[i := t])
  }

  function ReturnDepositHold(db: Db, i: nat): Db
    requires i in db.txs
  {
    var t := db.txs[i];
    var applied := t.metadata.depositApplied;
    if applied <= 0 || t.metadata.depositReturned then db
    else if t.parent !in db.deposits then db
    else if Posted(db.journal, OfTransaction(i), OrderCanceledReturn) then db
    else
      db.(journal := db.journal + [DepositEntry(t.parent, applied, OrderCanceledReturn, OfTransaction(i))],
          deposits := db.deposits[t.parent := db.deposits[t.parent] + applied],
          txs := db.txs[i := t.(metadata := t.metadata.(depositReturned := true))])
  }

  function CancelPendingSubscription(subs: map<nat, Subscription>, s: nat): map<nat, Subscription> {
    if s in subs && subs[s].status == SubPending then subs[s := subs[s].(status := SubCanceled)] else subs
  }

  function ReleaseOrderResources(db: Db, i: nat): Db
    requires i in db.txs
  {
    match db.txs[i].subscription
    case None => ReturnDepositHold(db, i)
    case Some(s) =>
      ReturnDepositHold(db.(enrs := CancelLive(db.enrs, s), subs := CancelPendingSubscription(db.subs, s)), i)
  }

  function MarkForCompensation(t: Transaction, reason: Reason): Transaction {
    t.(requiresCompensation := true,
       metadata := t.metadata.(compensationRequired := true, reason := Some(reason)))
  }

  // ---- Activation window ----

  function Earlier(a: Calendar.Date, b: Calendar.Date): Calendar.Date
    requires Calendar.Valid(a) && Calendar.Valid(b)
  {
    if Calendar.Ordinal(b) < Calendar.Ordinal(a) then b else a
  }

  /** The earliest next lesson of the slots, or the first slot the schedule does not know. */
  function FirstLesson(w: World, ids: seq<int>): (r: Result<Calendar.Date, int>)
    requires WorldOk(w) && ids != []
    ensures r.Success? ==> Calendar.Valid(r.value) && Calendar.HasNextMonth(r.value)
  {
    var rest, slot := ids[..|ids| - 1], ids[|ids| - 1];
    if rest == [] then NextLesson(w, slot)
    else
      match FirstLesson(w, rest)
      case Failure(s) => Failure(s)
      case Success(d) =>
        match NextLesson(w, slot)
        case Failure(s) => Failure(s)
        case Success(next) => Success(Earlier(d, next))
  }

  function NextLesson(w: World, slot: int): (r: Result<Calendar.Date, int>)
    requires WorldOk(w)
    ensures r.Success? ==> Calendar.Valid(r.value) && Calendar.HasNextMonth(r.value)
  {
    if slot in w.nextLesson then Success(w.nextLesson[slot]) else Failure(slot)
  }

  /** The window starts with a lesson of one of the slots, and no slot has an earlier one. */
  lemma {:induction false} FirstLessonIsEarliest(w: World, ids: seq<int>)
    requires WorldOk(w) && ids != []
    ensures var r := FirstLesson(w, ids);
            r.Success? ==> (&& (exists s <- ids :: NextLesson(w, s) == r)
                            && forall s <- ids :: NextLesson(w, s).Success?
                                 && Calendar.Ordinal(r.value) <= Calendar.Ordinal(NextLesson(w, s).value))
    ensures var r := FirstLesson(w, ids);
            r.Failure? ==> r.error in ids && NextLesson(w, r.error).Failure?
  {
    var rest, slot := ids[..|ids| - 1], ids[|ids| - 1];
    assert forall s :: s in ids <==> s in rest || s == slot;
    if rest != [] {
      FirstLessonIsEarliest(w, rest);
    }
  }

  lemma {:induction false} FirstLessonKnownIff(w: World, ids: seq<int>)
    requires WorldOk(w) && ids != []
    ensures FirstLesson(w, ids).Success? <==> forall s <- ids :: s in w.nextLesson
  {
    var rest, slot := ids[..|ids| - 1], ids[|ids| - 1];
    assert forall s :: s in ids <==> s in rest || s == slot;
    if rest != [] {
      FirstLessonKnownIff(w, rest);
    }
  }

  /** From the first lesson to 23:59:59 of the day one month later. */
  function WindowFrom(first: Calendar.Date): Window
    requires Calendar.Valid(first) && Calendar.HasNextMonth(first)
  {
    Calendar.MonthAfterLandsInNextMonth(first);
    Window(first, Calendar.Ordinal(Calendar.MonthAfter(first)) * 86400 + 86399)
  }

  // ---- Checkout ----

  datatype CheckoutRequest = CheckoutRequest(parent: int, plan: int, student: int, slotIds: seq<int>, useDeposit: bool)

  datatype CheckoutError =
    | PlanNotFound
    | PlanSlotsMismatch(expected: nat, actual: nat)
    | StudentNotOwned
    | SlotNotFound(slot: int)
    | NoAvailableSeats(slot: int)
    | DuplicateEnrollment(slot: int)
    | UnlinkedPayment

  /** The new order, and whether the deposit paid for it in full. */
  datatype Placed = Placed(db: Db, order: nat, confirmed: bool)

  function BookSlot(enrs: map<SeatKey, Enrollment>, w: World, i: nat, student: int, slot: int, now: Moment)
    : Result<map<SeatKey, Enrollment>, CheckoutError>
  {
    var cleaned := CancelStaleHolds(enrs, slot, now);
    if slot !in w.capacity then Failure(SlotNotFound(slot))
    else if |Seats(cleaned, slot, now)| >= w.capacity[slot] then Failure(NoAvailableSeats(slot))
    else if Duplicate(cleaned, student, slot) then Failure(DuplicateEnrollment(slot))
    else Success(cleaned[SeatKey(i, slot) := Enrollment(student, Held, now)])
  }

  function BookSlots(enrs: map<SeatKey, Enrollment>, w: World, i: nat, student: int, slots: seq<int>, now: Moment)
    : Result<map<SeatKey, Enrollment>, CheckoutError>
  {
    if slots == [] then Success(enrs)
    else
      match BookSlots(enrs, w, i, student, slots[..|slots| - 1], now)
      case Failure(e) => Failure(e)
      case Success(booked) => BookSlot(booked, w, i, student, slots[|slots| - 1], now)
  }

  /** How much of the price the parent's deposit covers. */
  function DepositShare(deposits: map<int, int>, parent: int, price: int, useDeposit: bool): int {
    if useDeposit && parent in deposits && deposits[parent] > 0
    then if deposits[parent] < price then deposits[parent] else price
    else 0
  }

  const FRESH_METADATA := Metadata(0, false, false, false, false, None, NoRefund)

  function NewTransaction(parent: int, subscription: nat, price: int, applied: int, slots: seq<int>, now: Moment): Transaction {
    Transaction(parent, Some(subscription), price - applied, TxPending, SlotList(slots), None,
                FRESH_METADATA.(depositApplied := applied), false, None, now)
  }

  /** The rows one checkout inserts once the seats are held, before a prepaid order is fulfilled. */
  function InsertOrder(db: Db, parent: int, plan: Plan, slots: seq<int>, enrs: map<SeatKey, Enrollment>,
                       applied: int, now: Moment): Db
    requires applied > 0 ==> parent in db.deposits
  {
    var i := db.next;
    db.(next := i + 1,
        subs := db.subs[i := Subscription(parent, plan.price, plan.basePrice, SubPending, None)],
        txs := db.txs[i := NewTransaction(parent, i, plan.price, applied, slots, now)],
        enrs := enrs,
        deposits := if applied > 0 then db.deposits[parent := db.deposits[parent] - applied] else db.deposits,
        journal := if applied > 0
                   then db.journal + [DepositEntry(parent, -applied, CheckoutSpend, OfTransaction(i))]
                   else db.journal)
  }

  /** Paid, active, enrolled and granted, all at once. */
  function PrepaidDone(db: Db, i: nat, s: nat, window: Window): Db
    requires i in db.txs && db.txs[i].slots.SlotList?
  {
    var t := db.txs[i];
    db.(txs := db.txs[i := t.(status := TxSucceeded, metadata := t.metadata.(paidFromDeposit := true))],
        subs := if s in db.subs && db.subs[s].status == SubPending
                then db.subs[s := db.subs[s].(status := SubActive, window := Some(window))] else db.subs,
        enrs := EnrollHeld(db.enrs, s),
        tokens := GrantTokens(db.tokens, s, t.slots.ids))
  }

  function FulfillPrepaid(db: Db, w: World, i: nat): Result<Db, CheckoutError>
    requires i in db.txs && WorldOk(w)
  {
    var t := db.txs[i];
    if t.subscription.None? || t.slots.Damaged? || t.slots.ids == [] then Failure(UnlinkedPayment)
    else
      match FirstLesson(w, t.slots.ids)
      case Failure(slot) => Failure(SlotNotFound(slot))
      case Success(first) => Success(PrepaidDone(db, i, t.subscription.value, WindowFrom(first)))
  }

  function PlaceOrder(db: Db, w: World, req: CheckoutRequest, plan: Plan, slots: seq<int>, now: Moment)
    : Result<Placed, CheckoutError>
    requires WorldOk(w) && plan.price >= 0
  {
    match BookSlots(db.enrs, w, db.next, req.student, slots, now)
    case Failure(e) => Failure(e)
    case Success(enrs) =>
      var applied := DepositShare(db.deposits, req.parent, plan.price, req.useDeposit);
      var placed := InsertOrder(db, req.parent, plan, slots, enrs, applied, now);
      if plan.price - applied == 0 then
        match FulfillPrepaid(placed, w, db.next)
        case Failure(e) => Failure(e)
        case Success(done) => Success(Placed(done, db.next, true))
      else Success(Placed(placed, db.next, false))
  }

  function Checkout(db: Db, w: World, req: CheckoutRequest, now: Moment): Result<Placed, CheckoutError>
    requires WorldOk(w)
  {
    if req.plan !in w.plans then Failure(PlanNotFound)
    else
      var plan := w.plans[req.plan];
      var slots := Normalize(req.slotIds);
      if |slots| != plan.slotsCount then Failure(PlanSlotsMismatch(plan.slotsCount, |slots|))
      else if !(req.student in w.students && w.students[req.student] == req.parent) then Failure(StudentNotOwned)
      else PlaceOrder(db, w, req, plan, slots, now)
  }

  // ---- Confirmation ----

  /** Why the seats from index k on cannot be confirmed, if they cannot. */
  function EnrollProblem(enrs: map<SeatKey, Enrollment>, w: World, i: nat, ids: seq<int>, now: Moment, k: nat)
    : Option<Reason>
    requires k <= |ids|
    decreases |ids| - k
  {
    if k == |ids| then None
    else
      var seat := SeatKey(i, ids[k]);
      if seat !in enrs || enrs[seat].status != Held then Some(HoldLost)
      else if ids[k] !in w.capacity then Some(SlotRemoved)
      else if |Seats(enrs, ids[k], now) - {seat}| >= w.capacity[ids[k]] then Some(SeatsTakenAfterPayment)
      else EnrollProblem(enrs, w, i, ids, now, k + 1)
  }

  /** The new state, and the error raised after the commit, if any. */
  function ApplySuccess(db: Db, w: World, i: nat, info: PaymentInfo, now: Moment): (Db, Option<Reason>)
    requires WorldOk(w)
  {
    if i !in db.txs then (db, None)
    else
      var t := db.txs[i].(externalId := Some(info.id));
      if t.status != TxPending then
        if t.status == TxCanceled && t.metadata.ttlExpired && !t.metadata.compensationRequired
        then (SetTx(db, i, MarkForCompensation(t, PaymentSucceededAfterExpiry)), Some(PaymentSucceededAfterExpiry))
        else (db, None)
      else if info.currency != EXPECTED_CURRENCY || info.amount != t.amount then
        var failed := t.(status := TxFailed, metadata := t.metadata.(reason := Some(AmountMismatch)));
        (ReleaseOrderResources(SetTx(db, i, failed), i), Some(AmountMismatch))
      else if t.subscription.None? || t.slots.Damaged? then
        var failed := t.(status := TxFailed);
        (ReleaseOrderResources(SetTx(db, i, MarkForCompensation(failed, DataIntegrity)), i), Some(DataIntegrity))
      else if t.slots.ids == [] then (db, Some(EmptyOrder))
      else ApplyVerifiedSuccess(db, w, i, t.(status := TxSucceeded), t.subscription.value, t.slots.ids, now)
  }

  function ApplyVerifiedSuccess(db: Db, w: World, i: nat, t: Transaction, s: nat, ids: seq<int>, now: Moment)
    : (Db, Option<Reason>)
    requires WorldOk(w) && ids != []
  {
    match FirstLesson(w, ids)
    case Failure(_) =>
      (ReleaseOrderResources(SetTx(db, i, MarkForCompensation(t, SlotRemoved)), i), Some(SlotRemoved))
    case Success(first) =>
      if s !in db.subs || db.subs[s].status != SubPending then
        (ReleaseOrderResources(SetTx(db, i, MarkForCompensation(t, SubscriptionNotActivatable)), i),
         Some(SubscriptionNotActivatable))
      else
        match EnrollProblem(db.enrs, w, s, ids, now, 0)
        case Some(reason) =>
          var marked := SetTx(db, i, MarkForCompensation(t, reason));
          var undone := marked.(subs := marked.subs[s := marked.subs[s].(status := SubCanceled, window := None)]);
          (ReleaseOrderResources(undone, i), Some(reason))
        case None =>
          (SetTx(db, i, t).(
             subs := db.subs[s := db.subs[s].(status := SubActive, window := Some(WindowFrom(first)))],
             enrs := EnrollSlots(db.enrs, s, ids),
             tokens := GrantTokens(db.tokens, s, ids)),
           None)
  }

  function EnrollSlots(enrs: map<SeatKey, Enrollment>, order: nat, ids: seq<int>): map<SeatKey, Enrollment> {
    map k <- enrs :: if k.order == order && k.slot in ids && enrs[k].status == Held
                     then enrs[k].(status := Enrolled) else enrs[k]
  }

  function ApplyCancellation(db: Db, i: nat, paymentId: string): Db {
    if i in db.txs && db.txs[i].status == TxPending
    then ReleaseOrderResources(SetTx(db, i, db.txs[i].(status := TxCanceled, externalId := Some(paymentId))), i)
    else db
  }

  // ---- Sweeps: the database transaction run for one candidate row ----

  predicate StalePending(db: Db, i: nat, moment: Moment) {
    i in db.txs && db.txs[i].status == TxPending && db.txs[i].createdAt < moment - PENDING_TRANSACTION_TTL
  }

  function SweepStaleOne(db: Db, i: nat): Db {
    if i in db.txs && db.txs[i].status == TxPending then
      var t := db.txs[i];
      ReleaseOrderResources(SetTx(db, i, t.(status := TxCanceled, metadata := t.metadata.(ttlExpired := true))), i)
    else db
  }

  predicate Expirable(db: Db, i: nat, moment: Moment) {
    && i in db.subs && db.subs[i].status == SubActive
    && db.subs[i].window.Some? && db.subs[i].window.value.expiresAt < moment
  }

  /** Unused sessions in money: never negative, never more than the price. */
  function CreditFor(price: int, basePrice: int, used: int): int {
    var left := price - used * basePrice;
    var capped := if left < price then left else price;
    if capped > 0 then capped else 0
  }

  ghost function CreditUnusedSessions(db: Db, i: nat): Db
    requires i in db.subs
  {
    var s := db.subs[i];
    var rows := TokenRowsOf(db.tokens, i);
    var spent := GrantedSum(db.tokens, rows) - RemainingSum(db.tokens, rows);
    var credit := CreditFor(s.price, s.basePrice, if spent > 0 then spent else 0);
    PostCredit(db.(tokens := ClearRemaining(db.tokens, i)), i, s.parent, credit)
  }

  /** Opens the deposit if there is none, then posts the credit once. */
  function PostCredit(db: Db, i: nat, parent: int, credit: int): Db {
    var refused := credit == 0 || Posted(db.journal, OfSubscription(i), SubscriptionExpiryCredit);
    var deposits := if credit == 0 || parent in db.deposits then db.deposits else db.deposits[parent := 0];
    db.(deposits := if refused then deposits else deposits[parent := deposits[parent] + credit],
        journal := if refused then db.journal
                   else db.journal + [DepositEntry(parent, credit, SubscriptionExpiryCredit, OfSubscription(i))])
  }

  ghost function ExpireOne(db: Db, i: nat, moment: Moment): Db {
    if Expirable(db, i, moment) then
      CreditUnusedSessions(db.(subs := db.subs[i := db.subs[i].(status := SubExpired)],
                               enrs := CancelLive(db.enrs, i)), i)
    else db
  }

  // ---- Tokens and attendance ----

  datatype TokenError =
    | AttendanceNotFound
    | AttendanceNotDebitable
    | EnrollmentNotEnrolled
    | SubscriptionNotSpendable
    | SlotBalanceNotFound
    | InsufficientTokens
    | TokenNotRefundable

  /** Foreign keys: an attendance mark points at an enrollment, an enrollment at a subscription. */
  ghost predicate Linked(db: Db) {
    && (forall m <- db.marks :: db.marks[m].seat in db.enrs)
    && (forall k <- db.enrs :: k.order in db.subs)
  }

  function MoveToken(db: Db, m: nat, delta: int, debited: bool): Db
    requires m in db.marks && db.marks[m].seat in db.tokens
  {
    var seat := db.marks[m].seat;
    db.(tokens := db.tokens[seat := db.tokens[seat].(remaining := db.tokens[seat].remaining + delta)],
        marks := db.marks[m := db.marks[m].(debited := debited)])
  }

  function DebitToken(db: Db, m: nat, now: Moment): Result<Db, TokenError>
    requires Linked(db)
  {
    if m !in db.marks then Failure(AttendanceNotFound)
    else
      var mark := db.marks[m];
      if mark.debited then Success(db)
      else if mark.status != Attended then Failure(AttendanceNotDebitable)
      else if db.enrs[mark.seat].status != Enrolled then Failure(EnrollmentNotEnrolled)
      else
        var s := db.subs[mark.seat.order];
        if s.status != SubActive || (s.window.Some? && s.window.value.expiresAt < now) then Failure(SubscriptionNotSpendable)
        else if mark.seat !in db.tokens then Failure(SlotBalanceNotFound)
        else if db.tokens[mark.seat].remaining <= 0 then Failure(InsufficientTokens)
        else Success(MoveToken(db, m, -1, true))
  }

  function RefundToken(db: Db, m: nat): Result<Db, TokenError>
    requires Linked(db)
  {
    if m !in db.marks then Failure(AttendanceNotFound)
    else
      var mark := db.marks[m];
      if !mark.debited then Success(db)
      else if db.subs[mark.seat.order].status != SubActive then Failure(TokenNotRefundable)
      else if mark.seat !in db.tokens then Failure(SlotBalanceNotFound)
      else Success(MoveToken(db, m, 1, false))
  }

  function SetAttendanceStatus(db: Db, m: nat, status: AttendanceStatus, now: Moment): Result<Db, TokenError>
    requires Linked(db)
  {
    if m !in db.marks then Failure(AttendanceNotFound)
    else
      var mark := db.marks[m];
      var renamed := db.(marks := db.marks[m := mark.(status := status)]);
      if mark.status == status then Success(db)
      else if status == Attended then DebitToken(renamed, m, now)
      else if mark.debited then RefundToken(renamed, m)
      else Success(renamed)
  }

  /** Opening a lesson marks an enrolled student as attended, without a debit. */
  function OpenMark(db: Db, seat: SeatKey, date: int): Db {
    if seat in db.enrs && db.enrs[seat].status == Enrolled
       && !(exists m <- db.marks :: db.marks[m].seat == seat && db.marks[m].date == date)
    then db.(nextMark := db.nextMark + 1, marks := db.marks[db.nextMark := Attendance(seat, date, Attended, false)])
    else db
  }

  // ---- Refunds ----

  function CloseRefund(db: Db, i: nat, note: RefundNote): Db
    requires i in db.txs
  {
    var t := db.txs[i];
    if t.requiresCompensation then SetTx(db, i, Unflagged(t, note)) else db
  }

  function Unflagged(t: Transaction, note: RefundNote): Transaction {
    t.(requiresCompensation := false, claimedUntil := None,
       metadata := t.metadata.(compensationRequired := false, refund := note))
  }

  predicate Claimable(db: Db, i: nat, moment: Moment) {
    && i in db.txs && db.txs[i].requiresCompensation
    && (db.txs[i].claimedUntil.None? || db.txs[i].claimedUntil.value < moment)
  }

  /** Reserve the refund, then either start a job for it or quarantine it. */
  function ClaimRefund(db: Db, job: nat, i: nat, moment: Moment): Db {
    if job in db.jobs || !Claimable(db, i, moment) then db
    else
      var t := db.txs[i].(claimedUntil := Some(moment + REFUND_CLAIM_TTL));
      var claimed := SetTx(db, i, t);
      match t.externalId
      case None => CloseRefund(claimed, i, RefundFailed)
      case Some(payment) => claimed.(jobs := db.jobs[job := RefundJob(i, payment, t.amount, NoAnswer(false))])
  }

  predicate Takes(answer: GatewayAnswer) {
    match answer
    case NoAnswer(taken) => taken
    case Accepted(_) => true
    case Rejected => false
  }

  /** The call goes out under the key of its transaction, and the worker keeps the answer. */
  function SendRefund(db: Db, job: nat, answer: GatewayAnswer): Db {
    if job !in db.jobs then db
    else
      var j := db.jobs[job];
      db.(calls := db.calls + [RefundCall(j.tx, RefundKey(j.tx), j.paymentId, j.amount, Takes(answer))],
          jobs := db.jobs[job := j.(answer := answer)])
  }

  /** The worker records the answer; without one (network failure, crash) the job is simply gone. */
  function SettleRefund(db: Db, job: nat): Db {
    if job !in db.jobs then db
    else
      var j := db.jobs[job];
      var ended := db.(jobs := db.jobs - {job});
      match j.answer
      case NoAnswer(_) => ended
      case Accepted(id) => if j.tx in db.txs then CloseRefund(ended, j.tx, Refunded(id)) else ended
      case Rejected => if j.tx in db.txs then CloseRefund(ended, j.tx, RefundFailed) else ended
  }
}
