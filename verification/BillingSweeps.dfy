/**
 The two order sweeps as batches: a query picks at most a thousand candidates,
 oldest first, and each candidate is handled in a database transaction of its
 own.
 */
module BillingSweeps {
  import opened Wrappers
  import opened BillingModel
  import opened BillingSteps
  import opened BillingInvariant
  import opened BillingKeepsFulfil
  import opened BillingKeepsTokens
  import opened BillingRuns

  // ---- What the candidate query answers ----

  predicate Distinct(ids: seq<nat>) {
    forall a, b :: 0 <= a < b < |ids| ==> ids[a] != ids[b]
  }

  /** Pending for more than a quarter of an hour. */
  predicate Overdue(db: Db, i: nat, moment: Moment) {
    i in db.txs && db.txs[i].status == TxPending && moment - db.txs[i].createdAt > 15 * 60
  }

  /** Active, with a window that ended before that moment. */
  predicate Ended(db: Db, i: nat, moment: Moment) {
    && i in db.subs && db.subs[i].status == SubActive
    && db.subs[i].window.Some? && moment > db.subs[i].window.value.expiresAt
  }

  /** At most a chunk of the stale orders, none older left out. */
  ghost predicate StaleBatch(db: Db, ids: seq<nat>, moment: Moment) {
    && Distinct(ids) && |ids| <= SWEEP_CHUNK_SIZE
    && (forall i <- ids :: Overdue(db, i, moment))
    && (forall a, b :: 0 <= a < b < |ids| ==> CreatedOf(db, ids[a]) <= CreatedOf(db, ids[b]))
    && (forall i :: Overdue(db, i, moment) && i !in ids ==>
          |ids| == SWEEP_CHUNK_SIZE && forall j <- ids :: CreatedOf(db, j) <= CreatedOf(db, i))
  }

  ghost predicate ExpiredBatch(db: Db, ids: seq<nat>, moment: Moment) {
    && Distinct(ids) && |ids| <= SWEEP_CHUNK_SIZE
    && (forall i <- ids :: Ended(db, i, moment))
    && (forall a, b :: 0 <= a < b < |ids| ==> ExpiryOf(db, ids[a]) <= ExpiryOf(db, ids[b]))
    && (forall i :: Ended(db, i, moment) && i !in ids ==>
          |ids| == SWEEP_CHUNK_SIZE && forall j <- ids :: ExpiryOf(db, j) <= ExpiryOf(db, i))
  }

  function CreatedOf(db: Db, i: nat): Moment {
    if i in db.txs then db.txs[i].createdAt else 0
  }

  function ExpiryOf(db: Db, i: nat): Moment {
    if i in db.subs && db.subs[i].window.Some? then db.subs[i].window.value.expiresAt else 0
  }

  // ---- The batches ----

  function SweepStaleAll(db: Db, ids: seq<nat>): Db {
    if ids == [] then db else SweepStaleOne(SweepStaleAll(db, ids[..|ids| - 1]), ids[|ids| - 1])
  }

  ghost function ExpireAll(db: Db, ids: seq<nat>, moment: Moment): Db {
    if ids == [] then db else ExpireOne(ExpireAll(db, ids[..|ids| - 1], moment), ids[|ids| - 1], moment)
  }

  lemma ReturnRows(db: Db, i: nat)
    requires i in db.txs
    ensures var after := ReturnDepositHold(db, i);
            && after.txs.Keys == db.txs.Keys && (forall j <- db.txs :: j != i ==> after.txs[j] == db.txs[j])
            && after.txs[i].status == db.txs[i].status && after.txs[i].metadata.ttlExpired == db.txs[i].metadata.ttlExpired
  {
  }

  lemma SweepOneRows(db: Db, i: nat)
    requires i in db.txs && db.txs[i].status == TxPending
    ensures var after := SweepStaleOne(db, i);
            && after.txs.Keys == db.txs.Keys
            && (forall j <- db.txs :: j != i ==> after.txs[j] == db.txs[j])
            && after.txs[i].status == TxCanceled && after.txs[i].metadata.ttlExpired
  {
    var t := db.txs[i];
    var canceled := SetTx(db, i, t.(status := TxCanceled, metadata := t.metadata.(ttlExpired := true)));
    ReleaseRows(canceled, i);
  }

  lemma ReleaseRows(db: Db, i: nat)
    requires i in db.txs
    ensures var after := ReleaseOrderResources(db, i);
            && after.txs.Keys == db.txs.Keys && (forall j <- db.txs :: j != i ==> after.txs[j] == db.txs[j])
            && after.txs[i].status == db.txs[i].status && after.txs[i].metadata.ttlExpired == db.txs[i].metadata.ttlExpired
  {
    match db.txs[i].subscription
    case None => ReturnRows(db, i);
    case Some(s) => ReturnRows(db.(enrs := CancelLive(db.enrs, s), subs := CancelPendingSubscription(db.subs, s)), i);
  }

  /** A sweep cancels its whole batch and touches no other transaction. */
  lemma {:induction false} SweepStaleRows(db: Db, ids: seq<nat>)
    requires Distinct(ids) && forall i <- ids :: i in db.txs && db.txs[i].status == TxPending
    ensures var after := SweepStaleAll(db, ids);
            && after.txs.Keys == db.txs.Keys
            && (forall j <- db.txs :: j !in ids ==> after.txs[j] == db.txs[j])
            && (forall j <- ids :: after.txs[j].status == TxCanceled && after.txs[j].metadata.ttlExpired)
  {
    if ids != [] {
      var last := |ids| - 1;
      assert forall i :: i in ids <==> i in ids[..last] || i == ids[last];
      assert ids[last] !in ids[..last];
      SweepStaleRows(db, ids[..last]);
      SweepOneRows(SweepStaleAll(db, ids[..last]), ids[last]);
    }
  }

  /** What stays stale after a sweep is no older than what was swept, and there is some only after a full chunk. */
  lemma SweepLeavesOnlyNewer(db: Db, ids: seq<nat>, moment: Moment, i: nat)
    requires StaleBatch(db, ids, moment)
    requires Overdue(SweepStaleAll(db, ids), i, moment)
    ensures Overdue(db, i, moment) && i !in ids && |ids| == SWEEP_CHUNK_SIZE
    ensures forall j <- ids :: CreatedOf(db, j) <= CreatedOf(db, i)
  {
    SweepStaleRows(db, ids);
  }

  lemma CreditKeepsSubs(db: Db, i: nat)
    requires i in db.subs
    ensures CreditUnusedSessions(db, i).subs == db.subs
  {
    var s := db.subs[i];
    var rows := TokenRowsOf(db.tokens, i);
    var spent := GrantedSum(db.tokens, rows) - RemainingSum(db.tokens, rows);
    PostKeepsSubs(db.(tokens := ClearRemaining(db.tokens, i)), i, s.parent,
                  CreditFor(s.price, s.basePrice, if spent > 0 then spent else 0));
  }

  lemma PostKeepsSubs(db: Db, i: nat, parent: int, credit: int)
    ensures PostCredit(db, i, parent, credit).subs == db.subs
  {
  }

  lemma ExpireOneRows(db: Db, i: nat, moment: Moment)
    requires Expirable(db, i, moment)
    ensures var after := ExpireOne(db, i, moment);
            && after.subs.Keys == db.subs.Keys
            && (forall j <- db.subs :: j != i ==> after.subs[j] == db.subs[j])
            && after.subs[i] == db.subs[i].(status := SubExpired)
  {
    CreditKeepsSubs(db.(subs := db.subs[i := db.subs[i].(status := SubExpired)], enrs := CancelLive(db.enrs, i)), i);
  }

  lemma {:induction false} ExpireRows(db: Db, ids: seq<nat>, moment: Moment)
    requires Distinct(ids) && forall i <- ids :: Expirable(db, i, moment)
    ensures var after := ExpireAll(db, ids, moment);
            && after.subs.Keys == db.subs.Keys
            && (forall j <- db.subs :: after.subs[j] == if j in ids then db.subs[j].(status := SubExpired) else db.subs[j])
  {
    if ids != [] {
      var last := |ids| - 1;
      assert forall i :: i in ids <==> i in ids[..last] || i == ids[last];
      assert ids[last] !in ids[..last];
      ExpireRows(db, ids[..last], moment);
      ExpireOneRows(ExpireAll(db, ids[..last], moment), ids[last], moment);
    }
  }

  lemma EndedExpires(db: Db, ids: seq<nat>, moment: Moment)
    requires ExpiredBatch(db, ids, moment)
    ensures forall i <- ids :: Expirable(db, i, moment)
  {
  }

  lemma ExpiryLeavesOnlyNewer(db: Db, ids: seq<nat>, moment: Moment, i: nat)
    requires ExpiredBatch(db, ids, moment)
    requires Ended(ExpireAll(db, ids, moment), i, moment)
    ensures Ended(db, i, moment) && i !in ids && |ids| == SWEEP_CHUNK_SIZE
    ensures forall j <- ids :: ExpiryOf(db, j) <= ExpiryOf(db, i)
  {
    EndedExpires(db, ids, moment);
    ExpireRows(db, ids, moment);
  }

  lemma StaleTurn(db: Db, stale: seq<nat>, moment: Moment, k: nat)
    requires StaleBatch(db, stale, moment) && k < |stale|
    ensures var reached := SweepStaleAll(db, stale[..k]);
            && StalePending(reached, stale[k], moment)
            && SweepStaleAll(db, stale[..k + 1]) == SweepStaleOne(reached, stale[k])
  {
    assert stale[..k + 1][..k] == stale[..k];
    assert stale[k] in stale && stale[k] !in stale[..k];
    SweepStaleRows(db, stale[..k]);
  }

  lemma ExpiredTurn(db: Db, due: seq<nat>, moment: Moment, k: nat)
    requires ExpiredBatch(db, due, moment) && k < |due|
    ensures var reached := ExpireAll(db, due[..k], moment);
            Expirable(reached, due[k], moment)
            && ExpireAll(db, due[..k + 1], moment) == ExpireOne(reached, due[k], moment)
  {
    assert due[..k + 1][..k] == due[..k];
    assert due[k] in due && due[k] !in due[..k];
    EndedExpires(db, due, moment);
    ExpireRows(db, due[..k], moment);
  }

  /** The batches keep the joint invariant. */
  lemma {:induction false} StaleBatchKeepsInv(db: Db, stale: seq<nat>)
    requires Inv(db)
    ensures Inv(SweepStaleAll(db, stale))
  {
    if stale != [] {
      var last := |stale| - 1;
      StaleBatchKeepsInv(db, stale[..last]);
      SweepStaleKeepsInv(SweepStaleAll(db, stale[..last]), stale[last]);
    }
  }

  lemma {:induction false} ExpiredBatchKeepsInv(db: Db, due: seq<nat>, moment: Moment)
    requires Inv(db)
    ensures Inv(ExpireAll(db, due, moment))
  {
    if due != [] {
      var last := |due| - 1;
      ExpiredBatchKeepsInv(db, due[..last], moment);
      ExpireKeepsInv(ExpireAll(db, due[..last], moment), due[last], moment);
    }
  }

  // ---- The refund pipeline ----

  /** At most a chunk of the flagged transactions, none older left out. */
  ghost predicate RefundBatch(db: Db, ids: seq<nat>) {
    && Distinct(ids) && |ids| <= REFUND_CHUNK_SIZE
    && (forall i <- ids :: i in db.txs && db.txs[i].requiresCompensation)
    && (forall a, b :: 0 <= a < b < |ids| ==> CreatedOf(db, ids[a]) <= CreatedOf(db, ids[b]))
    && (forall i <- db.txs :: db.txs[i].requiresCompensation && i !in ids ==>
          |ids| == REFUND_CHUNK_SIZE && forall j <- ids :: CreatedOf(db, j) <= CreatedOf(db, i))
  }

  /** One candidate: claim, call the provider, record the answer. */
  function RefundOne(db: Db, job: nat, i: nat, answer: GatewayAnswer, moment: Moment): Db {
    SettleRefund(SendRefund(ClaimRefund(db, job, i, moment), job, answer), job)
  }

  /** The state after a tick, and the number of refunds it reports as issued. */
  datatype Tick = Tick(db: Db, issued: nat)

  function Counted(n: nat, t: Tick): Tick {
    t.(issued := n + t.issued)
  }

  /** The tick ends early when the network gives no answer; `answers` holds what each call would get. */
  function RefundAll(db: Db, job: nat, ids: seq<nat>, answers: map<nat, GatewayAnswer>, moment: Moment): Tick
    decreases |ids|
  {
    if ids == [] then Tick(db, 0)
    else
      var answer := AnswerFor(answers, ids[0]);
      var after := RefundOne(db, job, ids[0], answer, moment);
      var one := if Issues(db, ids[0], answer, moment) then 1 else 0;
      if Stops(db, ids[0], answers, moment) then Tick(after, one)
      else Counted(one, RefundAll(after, job, ids[1..], answers, moment))
  }

  lemma RefundAllStep(db: Db, job: nat, ids: seq<nat>, answers: map<nat, GatewayAnswer>, moment: Moment)
    requires ids != []
    ensures var answer := AnswerFor(answers, ids[0]);
            var after := RefundOne(db, job, ids[0], answer, moment);
            var one := if Issues(db, ids[0], answer, moment) then 1 else 0;
            RefundAll(db, job, ids, answers, moment)
            == if Stops(db, ids[0], answers, moment) then Tick(after, one)
               else Counted(one, RefundAll(after, job, ids[1..], answers, moment))
  {
  }

  function AnswerFor(answers: map<nat, GatewayAnswer>, i: nat): GatewayAnswer {
    if i in answers then answers[i] else NoAnswer(false)
  }

  predicate Sends(db: Db, i: nat, moment: Moment) {
    Claimable(db, i, moment) && db.txs[i].externalId.Some?
  }

  predicate Stops(db: Db, i: nat, answers: map<nat, GatewayAnswer>, moment: Moment) {
    Sends(db, i, moment) && AnswerFor(answers, i).NoAnswer?
  }

  predicate Issues(db: Db, i: nat, answer: GatewayAnswer, moment: Moment) {
    Sends(db, i, moment) && answer.Accepted?
  }

  lemma RefundOneKeepsInv(db: Db, job: nat, i: nat, answer: GatewayAnswer, moment: Moment)
    requires Inv(db)
    ensures Inv(RefundOne(db, job, i, answer, moment))
  {
    ClaimKeepsInv(db, job, i, moment);
    SendKeepsInv(ClaimRefund(db, job, i, moment), job, answer);
    SettleKeepsInv(SendRefund(ClaimRefund(db, job, i, moment), job, answer), job);
  }

  lemma {:induction false} RefundTickKeepsInv(db: Db, job: nat, ids: seq<nat>, answers: map<nat, GatewayAnswer>, moment: Moment)
    requires Inv(db)
    ensures Inv(RefundAll(db, job, ids, answers, moment).db)
    decreases |ids|
  {
    if ids != [] {
      RefundOneKeepsInv(db, job, ids[0], AnswerFor(answers, ids[0]), moment);
      RefundTickKeepsInv(RefundOne(db, job, ids[0], AnswerFor(answers, ids[0]), moment), job, ids[1..], answers, moment);
    }
  }

  /** The provider has acted on a call with this key. */
  predicate TakenKey(calls: seq<RefundCall>, key: string) {
    exists c :: 0 <= c < |calls| && calls[c].key == key && calls[c].taken
  }

  lemma TakenStays(calls: seq<RefundCall>, more: seq<RefundCall>, key: string)
    requires calls <= more && TakenKey(calls, key)
    ensures TakenKey(more, key)
  {
    var c :| 0 <= c < |calls| && calls[c].key == key && calls[c].taken;
    assert more[c] == calls[c];
  }

  /** A candidate that could be claimed is closed, and taken by the provider if accepted; any other is untouched. */
  ghost predicate Handled(db: Db, after: Db, i: nat, answer: GatewayAnswer, moment: Moment) {
    i in db.txs ==>
      && i in after.txs
      && if Claimable(db, i, moment)
         then !after.txs[i].requiresCompensation && (Issues(db, i, answer, moment) ==> TakenKey(after.calls, RefundKey(i)))
         else after.txs[i] == db.txs[i]
  }

  /** Only transaction i is touched, and the log only grows. */
  ghost predicate Touches(db: Db, after: Db, i: nat) {
    && after.txs.Keys == db.txs.Keys && after.jobs == db.jobs && db.calls <= after.calls
    && (forall j <- db.txs :: j != i ==> after.txs[j] == db.txs[j])
  }

  lemma ClaimedRows(db: Db, job: nat, i: nat, moment: Moment)
    requires job !in db.jobs && Claimable(db, i, moment)
    ensures var t := db.txs[i].(claimedUntil := Some(moment + REFUND_CLAIM_TTL));
            ClaimRefund(db, job, i, moment)
            == if t.externalId.None? then CloseRefund(SetTx(db, i, t), i, RefundFailed)
               else SetTx(db, i, t).(jobs := db.jobs[job := RefundJob(i, t.externalId.value, t.amount, NoAnswer(false))])
  {
  }

  lemma SentRows(db: Db, job: nat, answer: GatewayAnswer)
    requires job in db.jobs
    ensures var after := SendRefund(db, job, answer);
            && after.txs == db.txs && after.jobs == db.jobs[job := db.jobs[job].(answer := answer)]
            && db.calls <= after.calls
            && (answer.Accepted? ==> TakenKey(after.calls, RefundKey(db.jobs[job].tx)))
  {
    var after := SendRefund(db, job, answer);
    assert after.calls[|db.calls|].key == RefundKey(db.jobs[job].tx);
  }

  lemma SettledRows(db: Db, job: nat)
    requires job in db.jobs && db.jobs[job].tx in db.txs && !db.jobs[job].answer.NoAnswer?
    ensures var after := SettleRefund(db, job);
            var i := db.jobs[job].tx;
            && after.jobs == db.jobs - {job} && after.calls == db.calls && after.txs.Keys == db.txs.Keys
            && (forall j <- db.txs :: j != i ==> after.txs[j] == db.txs[j])
            && !after.txs[i].requiresCompensation
  {
    var note := if db.jobs[job].answer.Accepted? then Refunded(db.jobs[job].answer.refundId) else RefundFailed;
    ClosedRows(db.(jobs := db.jobs - {job}), db.jobs[job].tx, note);
  }

  lemma ClosedRows(db: Db, i: nat, note: RefundNote)
    requires i in db.txs
    ensures var after := CloseRefund(db, i, note);
            && after.jobs == db.jobs && after.calls == db.calls && after.txs.Keys == db.txs.Keys
            && (forall j <- db.txs :: j != i ==> after.txs[j] == db.txs[j])
            && !after.txs[i].requiresCompensation
  {
    RowSaved(db, i, Unflagged(db.txs[i], note));
  }

  lemma RowSaved(db: Db, i: nat, t: Transaction)
    requires i in db.txs
    ensures var after := SetTx(db, i, t);
            && after.jobs == db.jobs && after.calls == db.calls && after.txs.Keys == db.txs.Keys
            && (forall j <- db.txs :: j != i ==> after.txs[j] == db.txs[j])
            && after.txs[i] == t
  {
  }

  lemma NothingToSend(db: Db, job: nat, answer: GatewayAnswer)
    requires job !in db.jobs
    ensures SettleRefund(SendRefund(db, job, answer), job) == db
  {
  }

  /** A claimed refund the provider answered is closed; an accepted one has been taken; an unclaimable one is left alone. */
  lemma RefundOneHandles(db: Db, job: nat, i: nat, answer: GatewayAnswer, moment: Moment)
    requires job !in db.jobs && (Sends(db, i, moment) ==> !answer.NoAnswer?)
    ensures var after := RefundOne(db, job, i, answer, moment);
            Handled(db, after, i, answer, moment) && Touches(db, after, i)
  {
    var claimed := ClaimRefund(db, job, i, moment);
    if !Claimable(db, i, moment) {
      NothingToSend(claimed, job, answer);
    } else {
      ClaimedRows(db, job, i, moment);
      var t := db.txs[i].(claimedUntil := Some(moment + REFUND_CLAIM_TTL));
      if db.txs[i].externalId.None? {
        ClosedRows(SetTx(db, i, t), i, RefundFailed);
        NothingToSend(claimed, job, answer);
      } else {
        SentAndSettled(db, job, i, t, answer);
      }
    }
  }

  lemma SentAndSettled(db: Db, job: nat, i: nat, t: Transaction, answer: GatewayAnswer)
    requires job !in db.jobs && i in db.txs && t.externalId.Some? && !answer.NoAnswer?
    ensures var claimed := SetTx(db, i, t).(jobs := db.jobs[job := RefundJob(i, t.externalId.value, t.amount, NoAnswer(false))]);
            var after := SettleRefund(SendRefund(claimed, job, answer), job);
            && Touches(db, after, i) && i in after.txs && !after.txs[i].requiresCompensation
            && (answer.Accepted? ==> TakenKey(after.calls, RefundKey(i)))
  {
    var claimed := SetTx(db, i, t).(jobs := db.jobs[job := RefundJob(i, t.externalId.value, t.amount, NoAnswer(false))]);
    SentRows(claimed, job, answer);
    SettledRows(SendRefund(claimed, job, answer), job);
    assert claimed.jobs[job := claimed.jobs[job].(answer := answer)] - {job} == db.jobs;
  }

  /** Every call of the tick gets an answer. */
  predicate Answered(db: Db, ids: seq<nat>, answers: map<nat, GatewayAnswer>, moment: Moment) {
    forall k :: 0 <= k < |ids| && Sends(db, ids[k], moment) ==> !AnswerFor(answers, ids[k]).NoAnswer?
  }

  function CountIssued(db: Db, ids: seq<nat>, answers: map<nat, GatewayAnswer>, moment: Moment): nat {
    if ids == [] then 0
    else (if Issues(db, ids[0], AnswerFor(answers, ids[0]), moment) then 1 else 0) + CountIssued(db, ids[1..], answers, moment)
  }

  lemma {:induction false} SameRowsSameCount(db: Db, after: Db, ids: seq<nat>, answers: map<nat, GatewayAnswer>, moment: Moment)
    requires db.txs.Keys == after.txs.Keys
    requires forall k :: 0 <= k < |ids| && ids[k] in db.txs ==> after.txs[ids[k]] == db.txs[ids[k]]
    ensures CountIssued(after, ids, answers, moment) == CountIssued(db, ids, answers, moment)
  {
    if ids != [] {
      forall k | 0 <= k < |ids[1..]| && ids[1..][k] in db.txs ensures after.txs[ids[1..][k]] == db.txs[ids[1..][k]] {
        assert ids[1..][k] == ids[k + 1];
      }
      assert ids[0] in db.txs ==> after.txs[ids[0]] == db.txs[ids[0]];
      SameRowsSameCount(db, after, ids[1..], answers, moment);
    }
  }

  ghost predicate AllHandled(db: Db, after: Db, ids: seq<nat>, answers: map<nat, GatewayAnswer>, moment: Moment) {
    && after.txs.Keys == db.txs.Keys && db.calls <= after.calls
    && (forall j <- db.txs :: j !in ids ==> after.txs[j] == db.txs[j])
    && (forall k :: 0 <= k < |ids| ==> Handled(db, after, ids[k], AnswerFor(answers, ids[k]), moment))
  }

  /**
   When the provider answers every call, one tick closes every candidate it can
   claim, leaves those under another worker's claim alone, touches no other
   transaction and reports exactly the accepted refunds.
   */
  lemma {:induction false} RefundTickCloses(db: Db, job: nat, ids: seq<nat>, answers: map<nat, GatewayAnswer>, moment: Moment)
    requires job !in db.jobs && Distinct(ids) && Answered(db, ids, answers, moment)
    ensures var tick := RefundAll(db, job, ids, answers, moment);
            AllHandled(db, tick.db, ids, answers, moment) && tick.issued == CountIssued(db, ids, answers, moment)
    decreases |ids|
  {
    if ids != [] {
      var i, rest := ids[0], ids[1..];
      var next := RefundOne(db, job, i, AnswerFor(answers, i), moment);
      RefundOneHandles(db, job, i, AnswerFor(answers, i), moment);
      RestUntouched(db, next, ids, answers, moment);
      RefundTickCloses(next, job, rest, answers, moment);
      SameRowsSameCount(db, next, rest, answers, moment);
      HandledTogether(db, next, RefundAll(next, job, rest, answers, moment).db, ids, answers, moment);
    }
  }

  lemma RestUntouched(db: Db, next: Db, ids: seq<nat>, answers: map<nat, GatewayAnswer>, moment: Moment)
    requires ids != [] && Distinct(ids) && Answered(db, ids, answers, moment) && Touches(db, next, ids[0])
    ensures Answered(next, ids[1..], answers, moment) && Distinct(ids[1..])
    ensures forall k :: 0 <= k < |ids[1..]| && ids[1..][k] in db.txs ==> next.txs[ids[1..][k]] == db.txs[ids[1..][k]]
  {
    forall k | 0 <= k < |ids[1..]|
      ensures ids[1..][k] in db.txs ==> next.txs[ids[1..][k]] == db.txs[ids[1..][k]]
      ensures Sends(next, ids[1..][k], moment) ==> !AnswerFor(answers, ids[1..][k]).NoAnswer?
    {
      assert ids[1..][k] == ids[k + 1] && ids[0] != ids[k + 1];
      assert Sends(next, ids[k + 1], moment) <==> Sends(db, ids[k + 1], moment);
    }
  }

  lemma HandledTogether(db: Db, next: Db, after: Db, ids: seq<nat>, answers: map<nat, GatewayAnswer>, moment: Moment)
    requires ids != [] && Distinct(ids)
    requires Handled(db, next, ids[0], AnswerFor(answers, ids[0]), moment) && Touches(db, next, ids[0])
    requires AllHandled(next, after, ids[1..], answers, moment)
    ensures AllHandled(db, after, ids, answers, moment)
  {
    var rest := ids[1..];
    assert ids[0] !in rest;
    forall k | 0 <= k < |ids| ensures Handled(db, after, ids[k], AnswerFor(answers, ids[k]), moment) {
      if k == 0 {
        if ids[0] in db.txs && Issues(db, ids[0], AnswerFor(answers, ids[0]), moment) {
          TakenStays(next.calls, after.calls, RefundKey(ids[0]));
        }
      } else {
        assert ids[k] == rest[k - 1] && ids[k] != ids[0];
        assert Handled(next, after, rest[k - 1], AnswerFor(answers, rest[k - 1]), moment);
      }
    }
  }

  // ---- What the provider pays ----

  /** The provider pays a call it takes unless it took an earlier one with the same key: the total paid for transaction i. */
  function PaidFor(calls: seq<RefundCall>, i: nat): int {
    if calls == [] then 0
    else
      var earlier, last := calls[..|calls| - 1], calls[|calls| - 1];
      PaidFor(earlier, i) + if last.tx == i && last.taken && !TakenKey(earlier, last.key) then last.amount else 0
  }

  /** With one key and one amount per transaction, the total is nothing or that amount. */
  lemma {:induction false} PaidOnce(calls: seq<RefundCall>, i: nat, amount: int)
    requires forall c :: 0 <= c < |calls| ==> calls[c].key == RefundKey(calls[c].tx)
    requires forall c :: 0 <= c < |calls| && calls[c].tx == i ==> calls[c].amount == amount
    ensures PaidFor(calls, i) == if TakenKey(calls, RefundKey(i)) then amount else 0
  {
    if calls != [] {
      var n := |calls| - 1;
      var earlier, last := calls[..n], calls[n];
      PaidOnce(earlier, i, amount);
      if TakenKey(earlier, RefundKey(i)) {
        TakenStays(earlier, calls, RefundKey(i));
      }
      if last.key == RefundKey(i) {
        RefundKeyNames(last.tx, i);
      }
      LastTaken(calls, RefundKey(i));
    }
  }

  lemma LastTaken(calls: seq<RefundCall>, key: string)
    requires calls != []
    ensures var n := |calls| - 1;
            TakenKey(calls, key) <==> TakenKey(calls[..n], key) || (calls[n].key == key && calls[n].taken)
  {
    var n := |calls| - 1;
    if TakenKey(calls[..n], key) {
      TakenStays(calls[..n], calls, key);
    }
    if TakenKey(calls, key) {
      var c :| 0 <= c < |calls| && calls[c].key == key && calls[c].taken;
      assert c < n ==> calls[..n][c] == calls[c];
    }
  }
}
