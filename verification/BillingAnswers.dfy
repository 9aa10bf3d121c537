/**
 What the token, expiry and refund services answer, decided by the rows before
 the call: when a lesson can be debited, what an expired subscription is
 credited, and what becomes of a refund.
 */
module BillingAnswers {
  import opened Wrappers
  import opened BillingModel
  import opened BillingSteps
  import opened BillingInvariant
  import opened BillingKeepsFulfil
  import opened BillingKeepsTokens
  import opened BillingSweeps

  // ---- Tokens and attendance ----

  /** The seat is enrolled, its subscription active and its window not over, and a token is left. */
  predicate Spendable(db: Db, seat: SeatKey, now: Moment) {
    && seat in db.enrs && db.enrs[seat].status == Enrolled
    && seat.order in db.subs && db.subs[seat.order].status == SubActive
    && (db.subs[seat.order].window.Some? ==> now <= db.subs[seat.order].window.value.expiresAt)
    && seat in db.tokens && db.tokens[seat].remaining >= 1
  }

  /** The mark becomes `mark`, and the token row of its seat gains `delta`. */
  ghost predicate Moved(db: Db, after: Db, m: nat, mark: Attendance, delta: int) {
    && mark.seat in db.tokens
    && after == db.(marks := db.marks[m := mark],
                    tokens := db.tokens[mark.seat := TokenRow(db.tokens[mark.seat].granted, db.tokens[mark.seat].remaining + delta)])
  }

  /** Each refusal names a condition of the debit that fails. */
  predicate DebitRefused(db: Db, m: nat, now: Moment, e: TokenError) {
    if m !in db.marks then e == AttendanceNotFound
    else
      var mark := db.marks[m];
      match e
      case AttendanceNotFound => false
      case AttendanceNotDebitable => mark.status != Attended
      case EnrollmentNotEnrolled => mark.seat !in db.enrs || db.enrs[mark.seat].status != Enrolled
      case SubscriptionNotSpendable =>
        mark.seat.order in db.subs
        && (db.subs[mark.seat.order].status != SubActive
            || (db.subs[mark.seat.order].window.Some? && db.subs[mark.seat.order].window.value.expiresAt < now))
      case SlotBalanceNotFound => mark.seat !in db.tokens
      case InsufficientTokens => mark.seat in db.tokens && db.tokens[mark.seat].remaining < 1
      case TokenNotRefundable => false
  }

  /** A debit, its condition and its effect; debiting twice is debiting once. */
  ghost predicate DebitIs(db: Db, m: nat, now: Moment, after: Db, error: Option<TokenError>) {
    if m in db.marks && db.marks[m].debited then error == None && after == db
    else if m in db.marks && db.marks[m].status == Attended && Spendable(db, db.marks[m].seat, now) then
      error == None && Moved(db, after, m, db.marks[m].(debited := true), -1)
    else error.Some? && DebitRefused(db, m, now, error.value) && after == db
  }

  function StateOf(db: Db, r: Result<Db, TokenError>): Db {
    if r.Success? then r.value else db
  }

  function ErrorOf(r: Result<Db, TokenError>): Option<TokenError> {
    if r.Success? then None else Some(r.error)
  }

  lemma DebitAnswers(db: Db, m: nat, now: Moment)
    requires Linked(db)
    ensures var r := DebitToken(db, m, now); DebitIs(db, m, now, StateOf(db, r), ErrorOf(r))
  {
  }

  /** A token goes back while the subscription is active, and only for a debited mark. */
  ghost predicate GiveBackIs(db: Db, m: nat, after: Db, error: Option<TokenError>) {
    if m !in db.marks then error == Some(AttendanceNotFound) && after == db
    else if !db.marks[m].debited then error == None && after == db
    else if db.marks[m].seat.order !in db.subs || db.subs[db.marks[m].seat.order].status != SubActive then
      error == Some(TokenNotRefundable) && after == db
    else if db.marks[m].seat !in db.tokens then error == Some(SlotBalanceNotFound) && after == db
    else error == None && Moved(db, after, m, db.marks[m].(debited := false), 1)
  }

  lemma GiveBackAnswers(db: Db, m: nat)
    requires Linked(db)
    ensures var r := RefundToken(db, m); GiveBackIs(db, m, StateOf(db, r), ErrorOf(r))
  {
  }

  /**
   Marking a lesson as attended takes a token or fails; taking that mark back
   returns the token or fails; any other change moves no token.
   */
  ghost predicate StatusIs(db: Db, m: nat, status: AttendanceStatus, now: Moment, after: Db, error: Option<TokenError>) {
    if m !in db.marks then error == Some(AttendanceNotFound) && after == db
    else
      var mark := db.marks[m];
      if mark.status == status then error == None && after == db
      else if status == Attended then
        if Spendable(db, mark.seat, now) then error == None && Moved(db, after, m, mark.(status := Attended, debited := true), -1)
        else error.Some? && error != Some(AttendanceNotDebitable) && after == db
      else if mark.debited then
        if mark.seat.order in db.subs && db.subs[mark.seat.order].status == SubActive
        then error == None && Moved(db, after, m, mark.(status := status, debited := false), 1)
        else error == Some(TokenNotRefundable) && after == db
      else error == None && after == db.(marks := db.marks[m := mark.(status := status)])
  }

  lemma AttendedTakes(db: Db, m: nat, now: Moment)
    requires Linked(db) && m in db.marks && db.marks[m].status != Attended && !db.marks[m].debited
    ensures var r := SetAttendanceStatus(db, m, Attended, now); StatusIs(db, m, Attended, now, StateOf(db, r), ErrorOf(r))
  {
    var mark := db.marks[m].(status := Attended);
    var renamed := db.(marks := db.marks[m := mark]);
    assert db.marks[m := mark][m := mark.(debited := true)] == db.marks[m := mark.(debited := true)];
    assert Linked(renamed);
    DebitAnswers(renamed, m, now);
    assert Spendable(renamed, mark.seat, now) == Spendable(db, mark.seat, now);
  }

  lemma AbsentReturns(db: Db, m: nat, status: AttendanceStatus, now: Moment)
    requires Linked(db) && m in db.marks && db.marks[m].status != status && status != Attended
    requires db.marks[m].debited ==> db.marks[m].seat in db.tokens
    ensures var r := SetAttendanceStatus(db, m, status, now); StatusIs(db, m, status, now, StateOf(db, r), ErrorOf(r))
  {
    var mark := db.marks[m].(status := status);
    var renamed := db.(marks := db.marks[m := mark]);
    assert db.marks[m := mark][m := mark.(debited := false)] == db.marks[m := mark.(debited := false)];
    assert Linked(renamed);
    GiveBackAnswers(renamed, m);
  }

  lemma StatusAnswers(db: Db, m: nat, status: AttendanceStatus, now: Moment)
    requires Inv(db)
    ensures Linked(db)
    ensures var r := SetAttendanceStatus(db, m, status, now); StatusIs(db, m, status, now, StateOf(db, r), ErrorOf(r))
  {
    InvLinked(db);
    if m in db.marks && db.marks[m].status != status {
      assert MarkFits(db, m);
      if status == Attended {
        AttendedTakes(db, m, now);
      } else {
        AbsentReturns(db, m, status, now);
      }
    }
  }

  /** Opening a lesson adds one mark, attended and not debited, for an enrolled seat without a mark on that day. */
  lemma OpenAnswers(db: Db, seat: SeatKey, date: int)
    ensures var after := OpenMark(db, seat, date);
            if && seat in db.enrs && db.enrs[seat].status == Enrolled
               && forall m <- db.marks :: db.marks[m].seat != seat || db.marks[m].date != date
            then after == db.(marks := db.marks[db.nextMark := Attendance(seat, date, Attended, false)], nextMark := db.nextMark + 1)
            else after == db
  {
  }

  // ---- The credit of an expired subscription ----

  /** The price less a base price for each debited session, but never less than nothing nor more than the price. */
  predicate IsCredit(price: int, basePrice: int, debited: int, credit: int) {
    var left := price - debited * basePrice;
    && (0 <= left <= price ==> credit == left)
    && (left < 0 ==> credit == 0)
    && (left > price ==> credit == price)
  }

  lemma CreditIs(price: int, basePrice: int, debited: int)
    requires price >= 0
    ensures IsCredit(price, basePrice, debited, CreditFor(price, basePrice, debited))
  {
  }

  function SameSeats(enrs: map<SeatKey, Enrollment>, i: nat): map<SeatKey, Enrollment> {
    map k <- enrs :: if k.order == i then enrs[k].(status := EnrollmentCanceled) else enrs[k]
  }

  /** `credit` reaches the parent's deposit and the journal; every token of the order is gone. */
  ghost predicate CreditPaid(db: Db, after: Db, i: nat, credit: int)
    requires i in db.subs
  {
    var p := db.subs[i].parent;
    && after.tokens == (map k <- db.tokens :: if k.order == i then TokenRow(db.tokens[k].granted, 0) else db.tokens[k])
    && (forall q :: BalanceOf(after, q) == BalanceOf(db, q) + if q == p then credit else 0)
    && after.journal == (if credit == 0 then db.journal
                         else db.journal + [DepositEntry(p, credit, SubscriptionExpiryCredit, OfSubscription(i))])
    && after.txs == db.txs && after.marks == db.marks && after.jobs == db.jobs && after.calls == db.calls
  }

  /** Each token row of the subscription has lost a token for each of its debited marks, and nothing else was debited. */
  ghost predicate Accounted(db: Db, i: nat) {
    && (forall k <- db.tokens :: k.order == i ==> db.tokens[k].remaining + |DebitedAt(db.marks, k)| == db.tokens[k].granted)
    && (forall m <- db.marks :: db.marks[m].debited && db.marks[m].seat.order == i ==> db.marks[m].seat in db.tokens)
    && !Posted(db.journal, OfSubscription(i), SubscriptionExpiryCredit)
  }

  lemma AccountedSpent(db: Db, i: nat)
    requires Accounted(db, i)
    ensures var rows := TokenRowsOf(db.tokens, i);
            GrantedSum(db.tokens, rows) - RemainingSum(db.tokens, rows) == |DebitedOf(db.marks, i)|
  {
    var rows := TokenRowsOf(db.tokens, i);
    SpentIsDebited(db, rows);
    assert DebitedIn(db.marks, rows) == DebitedOf(db.marks, i);
  }

  ghost predicate CreditIsPaid(db: Db, after: Db, i: nat)
    requires i in db.subs
  {
    var s := db.subs[i];
    exists credit :: IsCredit(s.price, s.basePrice, |DebitedOf(db.marks, i)|, credit) && CreditPaid(db, after, i, credit)
  }

  lemma ClearedRows(tokens: map<SeatKey, TokenRow>, i: nat)
    ensures ClearRemaining(tokens, i) == map k <- tokens :: if k.order == i then TokenRow(tokens[k].granted, 0) else tokens[k]
  {
  }

  lemma CreditAnswers(db: Db, i: nat)
    requires i in db.subs && db.subs[i].price >= 0 && Accounted(db, i)
    ensures CreditIsPaid(db, CreditUnusedSessions(db, i), i)
  {
    var s, used := db.subs[i], |DebitedOf(db.marks, i)|;
    AccountedSpent(db, i);
    CreditIsPosted(db, i, used);
    CreditIs(s.price, s.basePrice, used);
    ClearedRows(db.tokens, i);
    assert CreditPaid(db, CreditUnusedSessions(db, i), i, CreditFor(s.price, s.basePrice, used));
  }

  /** The window is over: the subscription expires, its seats are given up and its credit is paid. */
  ghost predicate ExpiryIs(db: Db, i: nat, moment: Moment, after: Db) {
    if i in db.subs && db.subs[i].status == SubActive && db.subs[i].window.Some? && db.subs[i].window.value.expiresAt < moment then
      && after.subs == db.subs[i := db.subs[i].(status := SubExpired)]
      && after.enrs == SameSeats(db.enrs, i)
      && CreditIsPaid(db, after, i)
    else after == db
  }

  lemma ActiveIsAccounted(db: Db, i: nat)
    requires Inv(db) && i in db.subs && db.subs[i].status == SubActive
    ensures Accounted(db, i) && db.subs[i].price >= 0
  {
    forall k | k in db.tokens && k.order == i ensures db.tokens[k].remaining + |DebitedAt(db.marks, k)| == db.tokens[k].granted {
      assert TokenFits(db, k);
    }
    forall m | m in db.marks && db.marks[m].debited ensures db.marks[m].seat in db.tokens {
      assert MarkFits(db, m);
    }
    NotYetCredited(db, i);
    assert OrderOk(db, i);
  }

  lemma ExpiryAnswers(db: Db, i: nat, moment: Moment)
    requires Inv(db)
    ensures ExpiryIs(db, i, moment, ExpireOne(db, i, moment))
  {
    if Expirable(db, i, moment) {
      var s, used := db.subs[i], |DebitedOf(db.marks, i)|;
      ActiveIsAccounted(db, i);
      ExpireIsExpired(db, i, moment);
      CreditIs(s.price, s.basePrice, used);
      ClearedRows(db.tokens, i);
      GivenUp(db.enrs, i);
      assert CreditPaid(db, ExpiredDb(db, i, ExpiryCredit(db, i)), i, ExpiryCredit(db, i));
    }
  }

  lemma GivenUp(enrs: map<SeatKey, Enrollment>, i: nat)
    ensures CancelLive(enrs, i) == SameSeats(enrs, i)
  {
  }

  /**
   What the journal says of an expired order with so many debited marks: price
   less a base price for each, never more than the price, and no entry when
   nothing is left.
   */
  ghost predicate CreditedExactly(db: Db, i: nat, price: int, basePrice: int, debited: int) {
    && (Posted(db.journal, OfSubscription(i), SubscriptionExpiryCredit) <==> price > 0 && debited * basePrice < price)
    && (forall k :: 0 <= k < |db.journal| && db.journal[k].source == OfSubscription(i) ==>
          && db.journal[k].reason == SubscriptionExpiryCredit
          && db.journal[k].amount > 0 && IsCredit(price, basePrice, debited, db.journal[k].amount))
  }

  lemma ExpiredIsCredited(db: Db, i: nat)
    requires Inv(db) && i in db.subs && db.subs[i].status == SubExpired
    ensures CreditedExactly(db, i, db.subs[i].price, db.subs[i].basePrice, |DebitedOf(db.marks, i)|)
  {
    var price, basePrice, debited := db.subs[i].price, db.subs[i].basePrice, |DebitedOf(db.marks, i)|;
    assert OrderPosted(db, i) && OrderOk(db, i);
    CreditIs(price, basePrice, debited);
    forall k | 0 <= k < |db.journal| && db.journal[k].source == OfSubscription(i)
      ensures db.journal[k].reason == SubscriptionExpiryCredit && db.journal[k].amount == ExpiryCredit(db, i) > 0
    {
      assert EntryFits(db, db.journal[k]);
    }
  }

  ghost predicate IsCredited(db: Db, i: nat) {
    && i in db.subs && db.subs[i].status == SubExpired
    && CreditedExactly(db, i, db.subs[i].price, db.subs[i].basePrice, |DebitedOf(db.marks, i)|)
  }

  /** After a sweep each subscription of the batch has its credit in the journal. */
  lemma BatchIsCredited(db: Db, due: seq<nat>, moment: Moment)
    requires Inv(db) && ExpiredBatch(db, due, moment)
    ensures forall i <- due :: IsCredited(ExpireAll(db, due, moment), i)
  {
    var after := ExpireAll(db, due, moment);
    ExpiredBatchKeepsInv(db, due, moment);
    EndedExpires(db, due, moment);
    ExpireRows(db, due, moment);
    forall i | i in due ensures IsCredited(after, i) {
      ExpiredIsCredited(after, i);
    }
  }

  // ---- One refund candidate ----

  /** Flagged, and not under a lease that is still running. */
  predicate Due(db: Db, i: nat, moment: Moment) {
    && i in db.txs && db.txs[i].requiresCompensation
    && (db.txs[i].claimedUntil.Some? ==> db.txs[i].claimedUntil.value < moment)
  }

  /** The refund is closed for good with this note. */
  function Noted(t: Transaction, note: RefundNote): Transaction {
    t.(requiresCompensation := false, claimedUntil := None, metadata := t.metadata.(compensationRequired := false, refund := note))
  }

  /** The candidate's row after a tick; without an answer it stays flagged, under a lease of ten minutes. */
  function RowAfter(t: Transaction, answer: GatewayAnswer, moment: Moment): Transaction {
    if t.externalId.None? then Noted(t, RefundFailed)
    else
      match answer
      case Accepted(refundId) => Noted(t, Refunded(refundId))
      case Rejected => Noted(t, RefundFailed)
      case NoAnswer(_) => t.(claimedUntil := Some(moment + 10 * 60))
  }

  /** One call with the key, the payment and the full amount of the transaction, and what it leaves in its row. */
  ghost predicate CandidateIs(db: Db, i: nat, answer: GatewayAnswer, moment: Moment, after: Db) {
    if !Due(db, i, moment) then after == db
    else
      var t := db.txs[i];
      && after.txs == db.txs[i := RowAfter(t, answer, moment)]
      && after.calls == (if t.externalId.None? then db.calls
                         else db.calls + [RefundCall(i, RefundKey(i), t.externalId.value, t.amount, answer.Accepted? || answer == NoAnswer(true))])
      && after.(txs := db.txs, calls := db.calls) == db
  }

  lemma CandidateAnswers(db: Db, job: nat, i: nat, answer: GatewayAnswer, moment: Moment)
    requires job !in db.jobs
    ensures CandidateIs(db, i, answer, moment, RefundOne(db, job, i, answer, moment))
  {
    if Due(db, i, moment) {
      var t := db.txs[i].(claimedUntil := Some(moment + REFUND_CLAIM_TTL));
      ClaimedRows(db, job, i, moment);
      if t.externalId.None? {
        NothingToSend(ClaimRefund(db, job, i, moment), job, answer);
        assert db.txs[i := t][i := Noted(t, RefundFailed)] == db.txs[i := Noted(t, RefundFailed)];
      } else {
        SettledCall(db, job, i, t, answer);
      }
    } else {
      NothingToSend(ClaimRefund(db, job, i, moment), job, answer);
    }
  }

  lemma SettledCall(db: Db, job: nat, i: nat, t: Transaction, answer: GatewayAnswer)
    requires job !in db.jobs && i in db.txs && t.externalId.Some? && t.requiresCompensation
    ensures var claimed := SetTx(db, i, t).(jobs := db.jobs[job := RefundJob(i, t.externalId.value, t.amount, NoAnswer(false))]);
            var call := RefundCall(i, RefundKey(i), t.externalId.value, t.amount, answer.Accepted? || answer == NoAnswer(true));
            var row := match answer case Accepted(id) => Noted(t, Refunded(id)) case Rejected => Noted(t, RefundFailed) case NoAnswer(_) => t;
            SettleRefund(SendRefund(claimed, job, answer), job) == db.(txs := db.txs[i := row], calls := db.calls + [call])
  {
    var claimed := SetTx(db, i, t).(jobs := db.jobs[job := RefundJob(i, t.externalId.value, t.amount, NoAnswer(false))]);
    assert claimed.jobs[job := claimed.jobs[job].(answer := answer)] - {job} == db.jobs;
    var note := if answer.Accepted? then Refunded(answer.refundId) else RefundFailed;
    assert db.txs[i := t][i := Noted(t, note)] == db.txs[i := Noted(t, note)];
  }

  /** Without an answer the refund is not lost: it can be claimed again exactly when its lease of ten minutes has ended. */
  lemma UnansweredComesBack(db: Db, job: nat, i: nat, taken: bool, moment: Moment, later: Moment)
    requires job !in db.jobs && Due(db, i, moment) && db.txs[i].externalId.Some?
    ensures var after := RefundOne(db, job, i, NoAnswer(taken), moment);
            i in after.txs && after.txs[i].requiresCompensation && (Claimable(after, i, later) <==> later > moment + 10 * 60)
  {
    CandidateAnswers(db, job, i, NoAnswer(taken), moment);
  }

  // ---- A tick that is cut short ----

  predicate CallFails(db: Db, i: nat, answers: map<nat, GatewayAnswer>, moment: Moment) {
    Due(db, i, moment) && db.txs[i].externalId.Some? && (i in answers ==> answers[i].NoAnswer?)
  }

  /** The candidate's row as its own turn leaves it. */
  ghost predicate RowIs(db: Db, after: Db, i: nat, answer: GatewayAnswer, moment: Moment) {
    i in db.txs ==> i in after.txs && after.txs[i] == if Due(db, i, moment) then RowAfter(db.txs[i], answer, moment) else db.txs[i]
  }

  /** The first n candidates are handled, and no other row is touched. */
  ghost predicate Handles(db: Db, after: Db, ids: seq<nat>, answers: map<nat, GatewayAnswer>, moment: Moment, n: nat) {
    && n <= |ids| && after.txs.Keys == db.txs.Keys
    && (forall j <- db.txs :: j !in ids[..n] ==> after.txs[j] == db.txs[j])
    && (forall k :: 0 <= k < n ==> RowIs(db, after, ids[k], if ids[k] in answers then answers[ids[k]] else NoAnswer(false), moment))
  }

  /** The candidates among the first n whose refund the provider accepted. */
  ghost function AcceptedAmong(db: Db, ids: seq<nat>, answers: map<nat, GatewayAnswer>, moment: Moment, n: nat): set<nat>
    requires n <= |ids|
  {
    set i | i in ids[..n] && Due(db, i, moment) && db.txs[i].externalId.Some? && i in answers && answers[i].Accepted?
  }

  /** The tick ends with the first call that gets no answer, or with the last candidate. */
  ghost predicate EndsAt(db: Db, ids: seq<nat>, answers: map<nat, GatewayAnswer>, moment: Moment, n: nat) {
    && n <= |ids| && (forall k :: 0 <= k < n - 1 ==> !CallFails(db, ids[k], answers, moment))
    && (n < |ids| ==> n > 0 && CallFails(db, ids[n - 1], answers, moment))
  }

  ghost predicate TickIs(db: Db, ids: seq<nat>, answers: map<nat, GatewayAnswer>, moment: Moment, after: Tick, n: nat) {
    && Handles(db, after.db, ids, answers, moment, n) && EndsAt(db, ids, answers, moment, n)
    && after.issued == |AcceptedAmong(db, ids, answers, moment, n)|
  }

  lemma SameDue(db: Db, next: Db, i: nat, answers: map<nat, GatewayAnswer>, moment: Moment)
    requires next.txs.Keys == db.txs.Keys && (i in db.txs ==> next.txs[i] == db.txs[i])
    ensures Due(next, i, moment) == Due(db, i, moment) && CallFails(next, i, answers, moment) == CallFails(db, i, answers, moment)
  {
  }

  lemma {:induction false} TickAnswers(db: Db, job: nat, ids: seq<nat>, answers: map<nat, GatewayAnswer>, moment: Moment) returns (n: nat)
    requires job !in db.jobs && Distinct(ids)
    ensures TickIs(db, ids, answers, moment, RefundAll(db, job, ids, answers, moment), n)
    decreases |ids|
  {
    if ids == [] {
      n := 0;
    } else {
      var i, rest := ids[0], ids[1..];
      var next := RefundOne(db, job, i, AnswerFor(answers, i), moment);
      CandidateAnswers(db, job, i, AnswerFor(answers, i), moment);
      RefundAllStep(db, job, ids, answers, moment);
      if Stops(db, i, answers, moment) {
        n := 1;
        assert ids[..1] == [i];
        assert AcceptedAmong(db, ids, answers, moment, 1) == {};
      } else {
        var m := TickAnswers(next, job, rest, answers, moment);
        n := m + 1;
        HandlesGrows(db, next, RefundAll(next, job, rest, answers, moment).db, ids, answers, moment, m);
        EndGrows(db, next, ids, answers, moment, m);
        CountGrows(db, next, ids, answers, moment, m);
      }
    }
  }

  /** What the rest of the tick says about a candidate of the rest, said of the state before the first candidate. */
  lemma RestAsBefore(db: Db, next: Db, ids: seq<nat>, answers: map<nat, GatewayAnswer>, moment: Moment, k: nat)
    requires ids != [] && Distinct(ids) && CandidateIs(db, ids[0], AnswerFor(answers, ids[0]), moment, next) && k < |ids| - 1
    ensures ids[1..][k] == ids[k + 1] && ids[k + 1] != ids[0]
    ensures ids[k + 1] in db.txs ==> ids[k + 1] in next.txs && next.txs[ids[k + 1]] == db.txs[ids[k + 1]]
    ensures Due(next, ids[k + 1], moment) == Due(db, ids[k + 1], moment)
    ensures CallFails(next, ids[k + 1], answers, moment) == CallFails(db, ids[k + 1], answers, moment)
  {
    assert next.txs.Keys == db.txs.Keys;
    SameDue(db, next, ids[k + 1], answers, moment);
  }

  lemma HandlesGrows(db: Db, next: Db, after: Db, ids: seq<nat>, answers: map<nat, GatewayAnswer>, moment: Moment, m: nat)
    requires ids != [] && Distinct(ids) && CandidateIs(db, ids[0], AnswerFor(answers, ids[0]), moment, next)
    requires Handles(next, after, ids[1..], answers, moment, m)
    ensures Handles(db, after, ids, answers, moment, m + 1)
  {
    var rest := ids[1..];
    assert ids[..m + 1] == [ids[0]] + rest[..m];
    assert next.txs.Keys == db.txs.Keys && ids[0] !in rest[..m];
    forall k | 0 <= k < m + 1 ensures RowIs(db, after, ids[k], AnswerFor(answers, ids[k]), moment) {
      if k > 0 {
        RestAsBefore(db, next, ids, answers, moment, k - 1);
        assert RowIs(next, after, rest[k - 1], AnswerFor(answers, rest[k - 1]), moment);
      }
    }
  }

  lemma EndGrows(db: Db, next: Db, ids: seq<nat>, answers: map<nat, GatewayAnswer>, moment: Moment, m: nat)
    requires ids != [] && Distinct(ids) && CandidateIs(db, ids[0], AnswerFor(answers, ids[0]), moment, next)
    requires !CallFails(db, ids[0], answers, moment) && EndsAt(next, ids[1..], answers, moment, m)
    ensures EndsAt(db, ids, answers, moment, m + 1)
  {
    forall k | 0 < k < |ids|
      ensures ids[k] == ids[1..][k - 1] && CallFails(next, ids[k], answers, moment) == CallFails(db, ids[k], answers, moment)
    {
      RestAsBefore(db, next, ids, answers, moment, k - 1);
    }
  }

  lemma CountGrows(db: Db, next: Db, ids: seq<nat>, answers: map<nat, GatewayAnswer>, moment: Moment, m: nat)
    requires ids != [] && Distinct(ids) && CandidateIs(db, ids[0], AnswerFor(answers, ids[0]), moment, next) && m < |ids|
    ensures |AcceptedAmong(db, ids, answers, moment, m + 1)|
         == |AcceptedAmong(next, ids[1..], answers, moment, m)| + if Issues(db, ids[0], AnswerFor(answers, ids[0]), moment) then 1 else 0
  {
    var rest := ids[1..];
    assert ids[..m + 1] == [ids[0]] + rest[..m];
    assert ids[0] !in rest[..m] && next.txs.Keys == db.txs.Keys;
    forall i | i in rest[..m] ensures (i in db.txs ==> next.txs[i] == db.txs[i]) && Due(next, i, moment) == Due(db, i, moment) {
      SameDue(db, next, i, answers, moment);
    }
    var later := AcceptedAmong(next, rest, answers, moment, m);
    if Issues(db, ids[0], AnswerFor(answers, ids[0]), moment) {
      assert AcceptedAmong(db, ids, answers, moment, m + 1) == later + {ids[0]};
    } else {
      assert AcceptedAmong(db, ids, answers, moment, m + 1) == later;
    }
  }
}
