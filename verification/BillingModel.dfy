/**
 Rows of the billing tables, the constants of the billing services and the
 database rules. Amounts are whole kopecks, moments and durations whole seconds.

 Row names. A checkout inserts one subscription row and one transaction row
 and gives both the same fresh number. An enrollment row and a token row are
 named by the order and the schedule slot they were inserted for.
 */
module BillingModel {
  import opened Wrappers
  import Calendar
  import Money

  type Moment = int

  const PENDING_TRANSACTION_TTL := 15 * 60
  const SWEEP_CHUNK_SIZE := 1000
  const REFUND_CHUNK_SIZE := 500
  const REFUND_CLAIM_TTL := 10 * 60
  const TOKENS_PER_SLOT := 4
  const EXPECTED_CURRENCY := "RUB"

  // ---- Rows ----

  datatype SubscriptionStatus = SubDraft | SubPending | SubActive | SubExpired | SubCanceled

  datatype Window = Window(start: Calendar.Date, expiresAt: Moment)

  datatype Subscription = Subscription(
    parent: int,
    price: int,
    basePrice: int,
    status: SubscriptionStatus,
    window: Option<Window>)

  datatype TransactionStatus = TxPending | TxSucceeded | TxCanceled | TxFailed

  /** The JSON column holding the selected slots; a damaged value is not a list of numbers. */
  datatype SlotsColumn = SlotList(ids: seq<int>) | Damaged

  datatype Reason =
    | PaymentSucceededAfterExpiry
    | SlotRemoved
    | SubscriptionNotActivatable
    | HoldLost
    | SeatsTakenAfterPayment
    | AmountMismatch
    | DataIntegrity
    | EmptyOrder

  datatype RefundNote = NoRefund | Refunded(refundId: string) | RefundFailed

  /** The JSON metadata column: one field per key the services read or write. */
  datatype Metadata = Metadata(
    depositApplied: int,
    depositReturned: bool,
    paidFromDeposit: bool,
    ttlExpired: bool,
    compensationRequired: bool,
    reason: Option<Reason>,
    refund: RefundNote)

  datatype Transaction = Transaction(
    parent: int,
    subscription: Option<nat>,
    amount: int,
    status: TransactionStatus,
    slots: SlotsColumn,
    externalId: Option<string>,
    metadata: Metadata,
    requiresCompensation: bool,
    claimedUntil: Option<Moment>,
    createdAt: Moment)

  datatype EnrollmentStatus = Held | Enrolled | EnrollmentCanceled

  datatype SeatKey = SeatKey(order: nat, slot: int)

  datatype Enrollment = Enrollment(student: int, status: EnrollmentStatus, createdAt: Moment)

  datatype TokenRow = TokenRow(granted: int, remaining: int)

  datatype AttendanceStatus = Attended | AbsentErr | AbsentOk

  datatype Attendance = Attendance(seat: SeatKey, date: int, status: AttendanceStatus, debited: bool)

  datatype EntryReason = SubscriptionExpiryCredit | CheckoutSpend | OrderCanceledReturn

  datatype EntrySource = OfSubscription(id: nat) | OfTransaction(id: nat)

  datatype DepositEntry = DepositEntry(parent: int, amount: int, reason: EntryReason, source: EntrySource)

  /** Without an answer (network failure, crash) the provider may have taken the call or not. */
  datatype GatewayAnswer = NoAnswer(taken: bool) | Accepted(refundId: string) | Rejected

  /** A refund between the claim and its outcome, in the memory of one worker. */
  datatype RefundJob = RefundJob(tx: nat, paymentId: string, amount: int, answer: GatewayAnswer)

  /** The idempotence key sent for a transaction: a prefix and its number in decimal. */
  function RefundKey(tx: nat): string {
    "refund-" + Money.Decimal(tx)
  }

  lemma RefundKeyNames(a: nat, b: nat)
    requires RefundKey(a) == RefundKey(b)
    ensures a == b
  {
    assert RefundKey(a)[7..] == Money.Decimal(a) && RefundKey(b)[7..] == Money.Decimal(b);
    Money.DecimalValue(a);
    Money.DecimalValue(b);
  }

  /** One call to the provider; `taken` says whether the provider acted on it. */
  datatype RefundCall = RefundCall(tx: nat, key: string, paymentId: string, amount: int, taken: bool)

  datatype Db = Db(
    next: nat,
    subs: map<nat, Subscription>,
    txs: map<nat, Transaction>,
    enrs: map<SeatKey, Enrollment>,
    tokens: map<SeatKey, TokenRow>,
    nextMark: nat,
    marks: map<nat, Attendance>,
    deposits: map<int, int>,
    journal: seq<DepositEntry>,
    jobs: map<nat, RefundJob>,
    calls: seq<RefundCall>)

  const EMPTY_DB := Db(0, map[], map[], map[], map[], 0, map[], map[], [], map[], [])

  // ---- What the services read but never write ----

  datatype Plan = Plan(slotsCount: nat, price: int, basePrice: int)

  /** Plans, students and the schedule port as one step sees them; they may differ from step to step. */
  datatype World = World(
    plans: map<int, Plan>,
    students: map<int, int>,
    capacity: map<int, int>,
    nextLesson: map<int, Calendar.Date>)

  predicate WorldOk(w: World) {
    && (forall p <- w.plans :: w.plans[p].price >= 0 && w.plans[p].slotsCount >= 1)
    && (forall s <- w.nextLesson :: Calendar.Valid(w.nextLesson[s]) && Calendar.HasNextMonth(w.nextLesson[s]))
  }

  datatype PaymentInfo = PaymentInfo(id: string, amount: int, currency: string)

  // ---- Small readings of a row ----

  predicate Live(e: Enrollment) {
    e.status == Held || e.status == Enrolled
  }

  predicate HoldStale(e: Enrollment, now: Moment) {
    e.status == Held && e.createdAt < now - PENDING_TRANSACTION_TTL
  }

  predicate TakesSeat(e: Enrollment, now: Moment) {
    e.status == Enrolled || (e.status == Held && e.createdAt >= now - PENDING_TRANSACTION_TTL)
  }

  /** Database rule: one live enrollment per student and slot. */
  predicate Duplicate(enrs: map<SeatKey, Enrollment>, student: int, slot: int) {
    exists k <- enrs :: k.slot == slot && enrs[k].student == student && Live(enrs[k])
  }

  function Seats(enrs: map<SeatKey, Enrollment>, slot: int, now: Moment): set<SeatKey> {
    set k <- enrs | k.slot == slot && TakesSeat(enrs[k], now)
  }

  /** Database rule: one journal entry per source and reason. */
  predicate Posted(journal: seq<DepositEntry>, source: EntrySource, reason: EntryReason) {
    exists k :: 0 <= k < |journal| && journal[k].source == source && journal[k].reason == reason
  }

  // ---- Normalising the requested slots: sorted, each once ----

  predicate Ascending(s: seq<int>) {
    forall a, b :: 0 <= a < b < |s| ==> s[a] < s[b]
  }

  function InsertSlot(s: seq<int>, x: int): (r: seq<int>)
    requires Ascending(s)
    ensures Ascending(r)
    ensures forall y :: y in r <==> y in s || y == x
  {
    if s == [] then [x]
    else if x < s[0] then [x] + s
    else if x == s[0] then s
    else
      var rest := InsertSlot(s[1..], x);
      assert forall y :: y in s <==> y == s[0] || y in s[1..];
      assert forall y :: y in rest ==> y > s[0];
      assert forall k :: 0 <= k < |rest| ==> rest[k] in rest;
      var r := [s[0]] + rest;
      assert forall y :: y in r <==> y == s[0] || y in rest;
      r
  }

  function Normalize(ids: seq<int>): (r: seq<int>)
    ensures Ascending(r)
    ensures forall y :: y in r <==> y in ids
  {
    if ids == [] then []
    else
      assert forall y :: y in ids <==> y == ids[0] || y in ids[1..];
      InsertSlot(Normalize(ids[1..]), ids[0])
  }
}
