/**
 The joint invariant of the billing tables: what holds between a transaction,
 its subscription, its seats, its tokens, the deposit journal and the refunds.
 */
module BillingInvariant {
  import opened Wrappers
  import opened BillingModel
  import opened BillingSteps
  import opened Sums

  // ---- One order ----

  predicate HasTokens(status: SubscriptionStatus) {
    status == SubActive || status == SubExpired
  }

  /** The seats of a pending order are held or lost, of an active one enrolled, of any other one given up. */
  predicate SeatFits(status: SubscriptionStatus, e: Enrollment) {
    match status
    case SubDraft => false
    case SubPending => e.status != Enrolled
    case SubActive => e.status == Enrolled
    case SubExpired => e.status == EnrollmentCanceled
    case SubCanceled => e.status == EnrollmentCanceled
  }

  /** The transaction row against its subscription row. */
  predicate TxFits(i: nat, t: Transaction, s: Subscription) {
    && t.subscription == Some(i)
    && t.parent == s.parent
    && t.slots.SlotList? && t.slots.ids != [] && Ascending(t.slots.ids)
    && t.amount >= 0 && t.metadata.depositApplied >= 0
    && t.metadata.depositApplied + t.amount == s.price
    && t.requiresCompensation == t.metadata.compensationRequired
    && StatusesFit(t, s)
  }

  predicate StatusesFit(t: Transaction, s: Subscription) {
    match s.status
    case SubDraft => false
    case SubPending =>
      && t.status == TxPending && s.window.None?
      && !t.metadata.depositReturned && !t.requiresCompensation
    case SubActive =>
      && t.status == TxSucceeded && s.window.Some?
      && !t.metadata.depositReturned && !t.requiresCompensation
    case SubExpired =>
      && t.status == TxSucceeded && s.window.Some?
      && !t.metadata.depositReturned && !t.requiresCompensation
    case SubCanceled =>
      && t.status != TxPending
      && t.metadata.depositReturned == (t.metadata.depositApplied > 0)
      && (t.requiresCompensation ==> t.externalId.Some?)
  }

  ghost predicate SeatsFit(db: Db, i: nat)
    requires i in db.txs && i in db.subs && db.txs[i].slots.SlotList?
  {
    forall k ::
      && (SeatKey(i, k) in db.enrs <==> k in db.txs[i].slots.ids)
      && (SeatKey(i, k) in db.enrs ==> SeatFits(db.subs[i].status, db.enrs[SeatKey(i, k)]))
  }

  ghost predicate TokenRowsFit(db: Db, i: nat)
    requires i in db.txs && i in db.subs && db.txs[i].slots.SlotList?
  {
    forall k :: SeatKey(i, k) in db.tokens <==> (k in db.txs[i].slots.ids && HasTokens(db.subs[i].status))
  }

  ghost predicate OrderOk(db: Db, i: nat)
    requires i in db.txs && i in db.subs
  {
    TxFits(i, db.txs[i], db.subs[i]) && SeatsFit(db, i) && TokenRowsFit(db, i)
  }

  ghost predicate Orders(db: Db) {
    && db.subs.Keys == db.txs.Keys
    && (forall i <- db.txs :: i < db.next)
    && (forall k <- db.enrs :: k.order in db.txs)
    && (forall k <- db.tokens :: k.order in db.txs)
    && (forall i <- db.txs :: OrderOk(db, i))
  }

  // ---- Seats as the checks should count them ----

  /** Enrolled, or held for at most a quarter of an hour. */
  predicate Occupies(e: Enrollment, now: Moment) {
    e.status == Enrolled || (e.status == Held && now - e.createdAt <= 15 * 60)
  }

  predicate Lapsed(e: Enrollment, now: Moment) {
    e.status == Held && now - e.createdAt > 15 * 60
  }

  // ---- Tokens ----

  ghost function DebitedAt(marks: map<nat, Attendance>, seat: SeatKey): set<nat> {
    set m <- marks | marks[m].debited && marks[m].seat == seat
  }

  ghost function DebitedOf(marks: map<nat, Attendance>, order: nat): set<nat> {
    set m <- marks | marks[m].debited && marks[m].seat.order == order
  }

  predicate MarkFits(db: Db, m: nat)
    requires m in db.marks
  {
    var mark := db.marks[m];
    && m < db.nextMark
    && mark.seat in db.enrs
    && (mark.debited ==> mark.status == Attended && mark.seat in db.tokens)
  }

  /** While the subscription is active, tokens left plus debited marks make up the grant. */
  ghost predicate TokenFits(db: Db, seat: SeatKey)
    requires seat in db.tokens && seat.order in db.subs
  {
    var row := db.tokens[seat];
    && row.granted == TOKENS_PER_SLOT
    && row.remaining >= 0
    && (db.subs[seat.order].status == SubActive ==> row.remaining + |DebitedAt(db.marks, seat)| == row.granted)
    && (db.subs[seat.order].status == SubExpired ==> row.remaining == 0)
  }

  ghost predicate Tokens(db: Db) {
    && (forall m <- db.marks :: MarkFits(db, m))
    && (forall k <- db.tokens :: k.order in db.subs && TokenFits(db, k))
  }

  // ---- Deposit journal ----

  ghost function ParentSum(journal: seq<DepositEntry>, parent: int): int {
    if journal == [] then 0
    else
      var last := journal[|journal| - 1];
      ParentSum(journal[..|journal| - 1], parent) + if last.parent == parent then last.amount else 0
  }

  function BalanceOf(db: Db, parent: int): int {
    if parent in db.deposits then db.deposits[parent] else 0
  }

  ghost function ExpiryCredit(db: Db, i: nat): int
    requires i in db.subs
  {
    CreditFor(db.subs[i].price, db.subs[i].basePrice, |DebitedOf(db.marks, i)|)
  }

  /** An entry says what it moved and for which row. */
  ghost predicate EntryFits(db: Db, e: DepositEntry) {
    match e.reason
    case CheckoutSpend =>
      && e.source.OfTransaction? && e.source.id in db.txs
      && e.parent == db.txs[e.source.id].parent
      && e.amount == -db.txs[e.source.id].metadata.depositApplied < 0
    case OrderCanceledReturn =>
      && e.source.OfTransaction? && e.source.id in db.txs
      && e.parent == db.txs[e.source.id].parent
      && e.amount == db.txs[e.source.id].metadata.depositApplied > 0
      && db.txs[e.source.id].metadata.depositReturned
    case SubscriptionExpiryCredit =>
      && e.source.OfSubscription? && e.source.id in db.subs
      && e.parent == db.subs[e.source.id].parent
      && db.subs[e.source.id].status == SubExpired
      && e.amount == ExpiryCredit(db, e.source.id) > 0
  }

  ghost predicate NoDoublePosting(journal: seq<DepositEntry>) {
    forall a, b :: 0 <= a < b < |journal| ==>
      !(journal[a].source == journal[b].source && journal[a].reason == journal[b].reason)
  }

  ghost predicate OrderPosted(db: Db, i: nat)
    requires i in db.txs && i in db.subs
  {
    && (db.txs[i].metadata.depositApplied > 0 ==>
          Posted(db.journal, OfTransaction(i), CheckoutSpend) && db.txs[i].parent in db.deposits)
    && (db.txs[i].metadata.depositReturned ==> Posted(db.journal, OfTransaction(i), OrderCanceledReturn))
    && (db.subs[i].status == SubExpired && ExpiryCredit(db, i) > 0 ==>
          Posted(db.journal, OfSubscription(i), SubscriptionExpiryCredit))
  }

  ghost predicate Balances(db: Db) {
    forall p :: BalanceOf(db, p) == ParentSum(db.journal, p) >= 0
  }

  ghost predicate Ledger(db: Db) {
    && (forall k :: 0 <= k < |db.journal| ==> EntryFits(db, db.journal[k]))
    && NoDoublePosting(db.journal)
    && (forall i <- db.txs :: i in db.subs ==> OrderPosted(db, i))
  }

  // ---- Deposits never mint money ----

  /** Deposit tied up in an open or active order, minus what a card paid for an expired one. */
  function Exposure(db: Db, p: int, i: nat): int {
    if i in db.txs && i in db.subs && db.txs[i].parent == p then
      match db.subs[i].status
      case SubPending => db.txs[i].metadata.depositApplied
      case SubActive => db.txs[i].metadata.depositApplied
      case SubExpired => -db.txs[i].amount
      case _ => 0
    else 0
  }

  ghost function ExposureTerms(db: Db, p: int): nat -> int {
    (i: nat) => Exposure(db, p, i)
  }

  ghost predicate NoMint(db: Db) {
    forall p :: BalanceOf(db, p) + SumTo(ExposureTerms(db, p), db.next) <= 0
  }

  // ---- Refunds ----

  /** Money may go back for order i: nothing of it is held, and its deposit share is back. */
  predicate Refundable(db: Db, i: nat, amount: int) {
    i in db.txs && i in db.subs && db.subs[i].status == SubCanceled && amount == db.txs[i].amount
  }

  ghost predicate Refunds(db: Db) {
    && (forall j <- db.jobs :: Refundable(db, db.jobs[j].tx, db.jobs[j].amount))
    && (forall c :: 0 <= c < |db.calls| ==>
          Refundable(db, db.calls[c].tx, db.calls[c].amount) && db.calls[c].key == RefundKey(db.calls[c].tx))
  }

  ghost predicate Inv(db: Db) {
    Orders(db) && Tokens(db) && Balances(db) && Ledger(db) && NoMint(db) && Refunds(db)
  }

  lemma EmptyDbOk()
    ensures Inv(EMPTY_DB)
  {
  }
}
