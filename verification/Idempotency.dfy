/**
 The idempotency protocol of one checkout key, at the grain of its database
 statements. Any number of workers share the key; each may stall for any time
 between two statements, fail, or crash. A worker commits its order and
 finalises the record in one step, because the record update is the last
 statement of the database transaction.
 */
module Idempotency {
  import opened Wrappers

  type Moment = int

  const RESERVATION_TTL := 15 * 60
  const RECORD_TTL := 24 * 60 * 60

  /** A record without an order is a reservation in progress. */
  datatype Record = Record(
    fingerprint: string,
    order: Option<nat>,
    lockedUntil: Option<Moment>,
    lockToken: Option<nat>,
    createdAt: Moment)

  datatype Pc =
    | Started             // clock read, fencing token drawn
    | Reclaiming          // saw an unfinished record of the same request
    | Owner               // inside the database transaction
    | LockLost            // rolled back, about to read the record again
    | Releasing           // rolled back, about to delete its own reservation
    | Returned(order: nat)
    | Failed

  datatype Worker = Worker(fingerprint: string, readAt: Moment, token: nat, pc: Pc)

  /** `fingerprint` is the request of the worker that committed, `recorded` the one stored in the record. */
  datatype Commit = Commit(epoch: nat, order: nat, token: nat, fingerprint: string, recorded: string)

  /** An order id handed to a client; `direct` when it came from a finished record found at the start. */
  datatype Answer = Answer(epoch: nat, order: nat, fingerprint: string, direct: bool)

  /** An epoch ends when the sweep deletes the record. */
  datatype State = State(
    now: Moment,
    nextToken: nat,
    nextOrder: nat,
    epoch: nat,
    record: Option<Record>,
    workers: map<nat, Worker>,
    commits: seq<Commit>,
    answers: seq<Answer>)

  const INIT := State(0, 0, 0, 0, None, map[], [], [])

  datatype Action =
    | Tick(seconds: nat)
    | Arrive(w: nat, fingerprint: string)
    | GetOrCreate(w: nat)
    | Reclaim(w: nat)
    | FinalizeAndCommit(w: nat)
    | BusinessError(w: nat)
    | Release(w: nat)
    | ReadBack(w: nat)
    | Crash(w: nat)
    | Sweep(moment: Moment)

  predicate At(s: State, w: nat, pc: Pc) {
    w in s.workers && s.workers[w].pc == pc
  }

  function Goto(s: State, w: nat, pc: Pc): State
    requires w in s.workers
  {
    s.(workers := s.workers[w := s.workers[w].(pc := pc)])
  }

  function Reply(s: State, w: nat, order: nat, direct: bool): State
    requires w in s.workers
  {
    Goto(s, w, Returned(order)).(answers := s.answers + [Answer(s.epoch, order, s.workers[w].fingerprint, direct)])
  }

  predicate HoldsLock(s: State, token: nat) {
    s.record.Some? && s.record.value.order.None? && s.record.value.lockToken == Some(token)
  }

  /** Insert the reservation, or judge the record found in its place. */
  function DoGetOrCreate(s: State, w: nat): State
    requires w in s.workers
  {
    var me := s.workers[w];
    match s.record
    case None =>
      Goto(s, w, Owner).(record := Some(Record(me.fingerprint, None, Some(me.readAt + RESERVATION_TTL), Some(me.token), s.now)))
    case Some(r) =>
      if r.fingerprint != me.fingerprint then Goto(s, w, Failed)
      else match r.order
           case Some(order) => Reply(s, w, order, true)
           case None => Goto(s, w, Reclaiming)
  }

  /** One conditional update: take over a reservation whose lease had run out when this worker read the clock. */
  function DoReclaim(s: State, w: nat): State
    requires w in s.workers
  {
    var me := s.workers[w];
    if s.record.Some? && s.record.value.order.None?
       && s.record.value.lockedUntil.Some? && s.record.value.lockedUntil.value < me.readAt
    then Goto(s, w, Owner).(record := Some(s.record.value.(lockedUntil := Some(me.readAt + RESERVATION_TTL), lockToken := Some(me.token))))
    else Goto(s, w, Failed)
  }

  /** The order and the finished record become visible together, or neither does. */
  function DoCommit(s: State, w: nat): State
    requires w in s.workers
  {
    var me := s.workers[w];
    if HoldsLock(s, me.token) then
      var order := s.nextOrder;
      Reply(s, w, order, false).(
        nextOrder := order + 1,
        record := Some(s.record.value.(order := Some(order), lockedUntil := None, lockToken := None)),
        commits := s.commits + [Commit(s.epoch, order, me.token, me.fingerprint, s.record.value.fingerprint)])
    else Goto(s, w, LockLost)
  }

  function DoReadBack(s: State, w: nat): State
    requires w in s.workers
  {
    if s.record.Some? && s.record.value.order.Some? then Reply(s, w, s.record.value.order.value, false)
    else Goto(s, w, Failed)
  }

  predicate Sweepable(s: State, moment: Moment) {
    && s.record.Some? && moment <= s.now
    && s.record.value.createdAt < moment - RECORD_TTL
    && (s.record.value.lockedUntil.None? || s.record.value.lockedUntil.value < moment - RECORD_TTL)
  }

  /** A disabled action changes nothing. */
  function Exec(s: State, a: Action): State {
    match a
    case Tick(seconds) => s.(now := s.now + seconds)
    case Arrive(w, fingerprint) =>
      if w in s.workers then s
      else s.(nextToken := s.nextToken + 1, workers := s.workers[w := Worker(fingerprint, s.now, s.nextToken, Started)])
    case GetOrCreate(w) => if At(s, w, Started) then DoGetOrCreate(s, w) else s
    case Reclaim(w) => if At(s, w, Reclaiming) then DoReclaim(s, w) else s
    case FinalizeAndCommit(w) => if At(s, w, Owner) then DoCommit(s, w) else s
    case BusinessError(w) => if At(s, w, Owner) then Goto(s, w, Releasing) else s
    case Release(w) =>
      if At(s, w, Releasing) then
        Goto(s, w, Failed).(record := if HoldsLock(s, s.workers[w].token) then None else s.record)
      else s
    case ReadBack(w) => if At(s, w, LockLost) then DoReadBack(s, w) else s
    case Crash(w) => if w in s.workers && !s.workers[w].pc.Returned? then Goto(s, w, Failed) else s
    case Sweep(moment) => if Sweepable(s, moment) then s.(record := None, epoch := s.epoch + 1) else s
  }

  function Run(s: State, actions: seq<Action>): State
    decreases |actions|
  {
    if actions == [] then s else Run(Exec(s, actions[0]), actions[1..])
  }

  // ---- Invariant ----

  /** One fencing token per worker, never reused. */
  ghost predicate TokensDistinct(s: State) {
    && (forall w <- s.workers :: s.workers[w].token < s.nextToken && s.workers[w].readAt <= s.now)
    && (forall v, w :: v in s.workers && w in s.workers && v != w ==> s.workers[v].token != s.workers[w].token)
    && (s.record.Some? && s.record.value.lockToken.Some? ==> s.record.value.lockToken.value < s.nextToken)
  }

  ghost predicate CommitsFit(s: State) {
    && (forall c :: 0 <= c < |s.commits| ==> s.commits[c].epoch <= s.epoch && s.commits[c].token < s.nextToken)
    && (forall c, d :: 0 <= c < d < |s.commits| ==> s.commits[c].epoch != s.commits[d].epoch)
    && (forall c :: 0 <= c < |s.commits| && s.commits[c].epoch == s.epoch ==>
          && s.record.Some? && s.record.value.order == Some(s.commits[c].order)
          && s.record.value.fingerprint == s.commits[c].recorded)
    && (s.record.Some? && s.record.value.order.Some? ==>
          Committed(s.commits, s.epoch, s.record.value.order.value))
    && (s.record.Some? ==> s.record.value.createdAt <= s.now)
  }

  ghost predicate Committed(commits: seq<Commit>, epoch: nat, order: nat) {
    exists c :: 0 <= c < |commits| && commits[c].epoch == epoch && commits[c].order == order
  }

  /** The order a client was given is the order committed in that epoch; a direct replay also matched the stored request. */
  ghost predicate AnswerFits(commits: seq<Commit>, a: Answer) {
    exists c :: 0 <= c < |commits| && commits[c].epoch == a.epoch && commits[c].order == a.order
                && (a.direct ==> commits[c].recorded == a.fingerprint)
  }

  ghost predicate AnswersFit(s: State) {
    forall a :: 0 <= a < |s.answers| ==> AnswerFits(s.commits, s.answers[a])
  }

  /** A worker that has not finished has committed nothing. */
  ghost predicate UnfinishedCommittedNothing(s: State) {
    forall w, c :: w in s.workers && !s.workers[w].pc.Returned? && !s.workers[w].pc.Failed? && 0 <= c < |s.commits| ==>
      s.commits[c].token != s.workers[w].token
  }

  ghost predicate Inv(s: State) {
    TokensDistinct(s) && CommitsFit(s) && AnswersFit(s) && UnfinishedCommittedNothing(s)
  }

  lemma AnswersGrow(s: State, after: State)
    requires AnswersFit(s)
    requires s.commits <= after.commits && after.answers == s.answers
    ensures AnswersFit(after)
  {
    forall a | 0 <= a < |after.answers| ensures AnswerFits(after.commits, after.answers[a]) {
      assert AnswerFits(s.commits, s.answers[a]);
      var c :| 0 <= c < |s.commits| && s.commits[c].epoch == s.answers[a].epoch && s.commits[c].order == s.answers[a].order
               && (s.answers[a].direct ==> s.commits[c].recorded == s.answers[a].fingerprint);
      assert after.commits[c] == s.commits[c];
    }
  }

  lemma ReplyKeepsInv(s: State, w: nat, order: nat, direct: bool)
    requires Inv(s) && w in s.workers
    requires s.record.Some? && s.record.value.order == Some(order)
    requires direct ==> s.record.value.fingerprint == s.workers[w].fingerprint
    ensures Inv(Reply(s, w, order, direct))
  {
    var after := Reply(s, w, order, direct);
    forall a | 0 <= a < |after.answers| ensures AnswerFits(after.commits, after.answers[a]) {
      if a < |s.answers| {
        assert AnswerFits(s.commits, s.answers[a]);
      } else {
        assert Committed(s.commits, s.epoch, order);
        var c :| 0 <= c < |s.commits| && s.commits[c].epoch == s.epoch && s.commits[c].order == order;
        assert after.commits[c].recorded == s.record.value.fingerprint;
      }
    }
  }

  /** Finalise and commit, without the reply. */
  function Finalized(s: State, w: nat): State
    requires w in s.workers && HoldsLock(s, s.workers[w].token)
  {
    var me := s.workers[w];
    var order := s.nextOrder;
    Goto(s, w, Failed).(
      nextOrder := order + 1,
      record := Some(s.record.value.(order := Some(order), lockedUntil := None, lockToken := None)),
      commits := s.commits + [Commit(s.epoch, order, me.token, me.fingerprint, s.record.value.fingerprint)])
  }

  lemma FinalizedKeepsInv(s: State, w: nat)
    requires Inv(s) && w in s.workers && HoldsLock(s, s.workers[w].token)
    ensures Inv(Finalized(s, w))
  {
    var after := Finalized(s, w);
    AnswersGrow(s, after.(answers := s.answers));
    assert after.commits[|s.commits|].epoch == after.epoch && after.commits[|s.commits|].order == s.nextOrder;
    forall v, c | v in after.workers && !after.workers[v].pc.Returned? && !after.workers[v].pc.Failed? && 0 <= c < |after.commits|
      ensures after.commits[c].token != after.workers[v].token
    {
      if c < |s.commits| {
        assert after.commits[c] == s.commits[c];
      }
    }
  }

  lemma CommitKeepsInv(s: State, w: nat)
    requires Inv(s) && At(s, w, Owner)
    ensures Inv(DoCommit(s, w))
  {
    if HoldsLock(s, s.workers[w].token) {
      FinalizedKeepsInv(s, w);
      ReplyKeepsInv(Finalized(s, w), w, s.nextOrder, false);
      assert DoCommit(s, w) == Reply(Finalized(s, w), w, s.nextOrder, false);
    }
  }

  lemma GetOrCreateKeepsInv(s: State, w: nat)
    requires Inv(s) && At(s, w, Started)
    ensures Inv(DoGetOrCreate(s, w))
  {
    if s.record.Some? && s.record.value.fingerprint == s.workers[w].fingerprint && s.record.value.order.Some? {
      ReplyKeepsInv(s, w, s.record.value.order.value, true);
    } else {
      AnswersGrow(s, DoGetOrCreate(s, w));
    }
  }

  lemma ReadBackKeepsInv(s: State, w: nat)
    requires Inv(s) && At(s, w, LockLost)
    ensures Inv(DoReadBack(s, w))
  {
    if s.record.Some? && s.record.value.order.Some? {
      ReplyKeepsInv(s, w, s.record.value.order.value, false);
    } else {
      AnswersGrow(s, DoReadBack(s, w));
    }
  }

  lemma ExecKeepsInv(s: State, a: Action)
    requires Inv(s)
    ensures Inv(Exec(s, a))
  {
    match a
    case GetOrCreate(w) =>
      if At(s, w, Started) {
        GetOrCreateKeepsInv(s, w);
      }
    case FinalizeAndCommit(w) =>
      if At(s, w, Owner) {
        CommitKeepsInv(s, w);
      }
    case ReadBack(w) =>
      if At(s, w, LockLost) {
        ReadBackKeepsInv(s, w);
      }
    case Tick(_) => ArrivalKeepsInv(s, a);
    case Arrive(_, _) => ArrivalKeepsInv(s, a);
    case Reclaim(_) => ReclaimKeepsInv(s, a);
    case BusinessError(_) => StopKeepsInv(s, a);
    case Release(_) => ReleaseKeepsInv(s, a);
    case Crash(_) => StopKeepsInv(s, a);
    case Sweep(_) => ArrivalKeepsInv(s, a);
  }

  lemma ArrivalKeepsInv(s: State, a: Action)
    requires Inv(s) && (a.Tick? || a.Arrive? || a.Sweep?)
    ensures Inv(Exec(s, a))
  {
    AnswersGrow(s, Exec(s, a));
  }

  lemma ReclaimKeepsInv(s: State, a: Action)
    requires Inv(s) && a.Reclaim?
    ensures Inv(Exec(s, a))
  {
    AnswersGrow(s, Exec(s, a));
  }

  lemma ReleaseKeepsInv(s: State, a: Action)
    requires Inv(s) && a.Release?
    ensures Inv(Exec(s, a))
  {
    AnswersGrow(s, Exec(s, a));
  }

  lemma StopKeepsInv(s: State, a: Action)
    requires Inv(s) && (a.BusinessError? || a.Crash?)
    ensures Inv(Exec(s, a))
  {
    AnswersGrow(s, Exec(s, a));
  }

  lemma {:induction false} RunKeepsInv(s: State, actions: seq<Action>)
    requires Inv(s)
    ensures Inv(Run(s, actions))
    decreases |actions|
  {
    if actions != [] {
      ExecKeepsInv(s, actions[0]);
      RunKeepsInv(Exec(s, actions[0]), actions[1..]);
    }
  }

  // ---- At most one order per epoch, and no epoch shorter than a day ----

  lemma AtMostOneOrder(actions: seq<Action>)
    ensures var s := Run(INIT, actions);
            forall c, d :: 0 <= c < d < |s.commits| ==> s.commits[c].epoch != s.commits[d].epoch
  {
    RunKeepsInv(INIT, actions);
  }

  lemma AnswersCarryTheOrder(actions: seq<Action>, a: nat)
    requires a < |Run(INIT, actions).answers|
    ensures AnswerFits(Run(INIT, actions).commits, Run(INIT, actions).answers[a])
  {
    RunKeepsInv(INIT, actions);
  }

  /** Any record there is was created at `since` or later. */
  ghost predicate NotOlder(s: State, since: Moment) {
    s.now >= since && (s.record.Some? ==> s.record.value.createdAt >= since)
  }

  lemma ClockRuns(s: State, a: Action)
    ensures Exec(s, a).now >= s.now
  {
  }

  lemma {:induction false} ClockOnlyRuns(s: State, actions: seq<Action>)
    ensures Run(s, actions).now >= s.now
    decreases |actions|
  {
    if actions != [] {
      ClockRuns(s, actions[0]);
      ClockOnlyRuns(Exec(s, actions[0]), actions[1..]);
    }
  }

  lemma StepWithinDay(s: State, a: Action, since: Moment)
    requires NotOlder(s, since) && Exec(s, a).now <= since + RECORD_TTL
    ensures NotOlder(Exec(s, a), since) && Exec(s, a).epoch == s.epoch
  {
  }

  /** No sweep ends an epoch within a day of the creation of its record. */
  lemma {:induction false} EpochLastsADay(s: State, actions: seq<Action>, since: Moment)
    requires NotOlder(s, since) && Run(s, actions).now <= since + RECORD_TTL
    ensures Run(s, actions).epoch == s.epoch
    decreases |actions|
  {
    if actions != [] {
      ClockRuns(s, actions[0]);
      ClockOnlyRuns(Exec(s, actions[0]), actions[1..]);
      StepWithinDay(s, actions[0], since);
      EpochLastsADay(Exec(s, actions[0]), actions[1..], since);
    }
  }

  /** From the moment a record exists, one day passes with at most one order in its epoch. */
  lemma OneOrderADay(actions: seq<Action>, more: seq<Action>)
    requires Run(INIT, actions).record.Some?
    requires Run(Run(INIT, actions), more).now <= Run(INIT, actions).record.value.createdAt + RECORD_TTL
    ensures var s := Run(INIT, actions); var later := Run(s, more);
            && later.epoch == s.epoch
            && forall c, d :: 0 <= c < d < |later.commits| ==> !(later.commits[c].epoch == s.epoch && later.commits[d].epoch == s.epoch)
  {
    var s := Run(INIT, actions);
    RunKeepsInv(INIT, actions);
    RunKeepsInv(s, more);
    EpochLastsADay(s, more, s.record.value.createdAt);
  }

  // ---- Fencing ----

  /** The token is out of the record and out of the hands of anyone who could put it there. */
  ghost predicate Fenced(s: State, token: nat) {
    && token < s.nextToken
    && (s.record.Some? ==> s.record.value.lockToken != Some(token))
    && (forall w <- s.workers :: s.workers[w].token == token ==> s.workers[w].pc !in {Started, Reclaiming})
    && (forall c :: 0 <= c < |s.commits| ==> s.commits[c].token != token)
  }

  lemma StaysFenced(s: State, a: Action, token: nat)
    requires Fenced(s, token)
    ensures Fenced(Exec(s, a), token)
  {
  }

  lemma {:induction false} FencedForever(s: State, actions: seq<Action>, token: nat)
    requires Fenced(s, token)
    ensures Fenced(Run(s, actions), token)
    decreases |actions|
  {
    if actions != [] {
      StaysFenced(s, actions[0], token);
      FencedForever(Exec(s, actions[0]), actions[1..], token);
    }
  }

  /** An owner whose fencing token was replaced or deleted commits nothing, however the run goes on. */
  lemma ReplacedOwnerCommitsNothing(actions: seq<Action>, w: nat, more: seq<Action>)
    requires At(Run(INIT, actions), w, Owner)
    requires !HoldsLock(Run(INIT, actions), Run(INIT, actions).workers[w].token)
    ensures var token := Run(INIT, actions).workers[w].token;
            var later := Run(Run(INIT, actions), more);
            forall c :: 0 <= c < |later.commits| ==> later.commits[c].token != token
  {
    var s := Run(INIT, actions);
    RunKeepsInv(INIT, actions);
    FinishedHasNoToken(actions);
    FencedForever(s, more, s.workers[w].token);
  }

  ghost predicate FinishedUnlocked(s: State) {
    s.record.Some? && s.record.value.order.Some? ==> s.record.value.lockToken.None?
  }

  lemma {:induction false} FinishedHasNoTokenFrom(s: State, actions: seq<Action>)
    requires FinishedUnlocked(s)
    ensures FinishedUnlocked(Run(s, actions))
    decreases |actions|
  {
    if actions != [] {
      FinishedHasNoTokenFrom(Exec(s, actions[0]), actions[1..]);
    }
  }

  lemma FinishedHasNoToken(actions: seq<Action>)
    ensures FinishedUnlocked(Run(INIT, actions))
  {
    FinishedHasNoTokenFrom(INIT, actions);
  }

  // ---- The lease protects its owner ----

  /** An unfinished record in the name of this token, leased until that moment. */
  predicate Leased(s: State, token: nat, until: Moment) {
    && s.record.Some? && s.record.value.order.None?
    && s.record.value.lockToken == Some(token) && s.record.value.lockedUntil == Some(until)
  }

  /** Every unfinished record is leased by a worker, for a quarter of an hour from its clock reading. */
  ghost predicate LeaseFits(s: State) {
    s.record.Some? && s.record.value.order.None? ==>
      exists w <- s.workers :: Leased(s, s.workers[w].token, s.workers[w].readAt + 15 * 60)
  }

  lemma LeaseFitsStep(s: State, a: Action)
    requires LeaseFits(s)
    ensures LeaseFits(Exec(s, a))
  {
    var after := Exec(s, a);
    if after.record.Some? && after.record.value.order.None? {
      if after.record == s.record {
        var v :| v in s.workers && Leased(s, s.workers[v].token, s.workers[v].readAt + 15 * 60);
        assert v in after.workers && after.workers[v].token == s.workers[v].token && after.workers[v].readAt == s.workers[v].readAt;
      } else {
        assert Leased(after, after.workers[a.w].token, after.workers[a.w].readAt + 15 * 60);
      }
    }
  }

  lemma {:induction false} LeaseFitsRun(s: State, actions: seq<Action>)
    requires LeaseFits(s)
    ensures LeaseFits(Run(s, actions))
    decreases |actions|
  {
    if actions != [] {
      LeaseFitsStep(s, actions[0]);
      LeaseFitsRun(Exec(s, actions[0]), actions[1..]);
    }
  }

  /** How a lease can end in one step. */
  ghost predicate LeaseEnds(s: State, a: Action, token: nat, until: Moment) {
    match a
    case Reclaim(w) =>
      && At(s, w, Reclaiming) && until < s.workers[w].readAt
      && Leased(Exec(s, a), s.workers[w].token, s.workers[w].readAt + 15 * 60)
    case FinalizeAndCommit(w) =>
      && At(s, w, Owner) && s.workers[w].token == token
      && Exec(s, a).record.Some? && Exec(s, a).record.value.order.Some?
    case Release(w) => At(s, w, Releasing) && s.workers[w].token == token && Exec(s, a).record.None?
    case Sweep(moment) => until + 24 * 60 * 60 < moment <= s.now && Exec(s, a).record.None?
    case _ => false
  }

  /**
   A lease ends only when its holder finishes or gives up, when a worker takes over
   whose clock reading lies after the end of the lease, or when it is swept a day
   after that end.
   */
  lemma LeaseStep(s: State, a: Action, token: nat, until: Moment)
    requires Leased(s, token, until) && !Leased(Exec(s, a), token, until)
    ensures LeaseEnds(s, a, token, until)
  {
  }

  /** In every run, whatever replaces the token of an unfinished record is one of these. */
  lemma TakenOverOnlyAfterLease(actions: seq<Action>, a: Action)
    requires var s := Run(INIT, actions); s.record.Some? && s.record.value.order.None?
    ensures var s := Run(INIT, actions);
            && s.record.value.lockToken.Some? && s.record.value.lockedUntil.Some?
            && (Leased(Exec(s, a), s.record.value.lockToken.value, s.record.value.lockedUntil.value)
                || LeaseEnds(s, a, s.record.value.lockToken.value, s.record.value.lockedUntil.value))
  {
    LeaseFitsRun(INIT, actions);
    var s := Run(INIT, actions);
    var w :| w in s.workers && Leased(s, s.workers[w].token, s.workers[w].readAt + 15 * 60);
    if !Leased(Exec(s, a), s.workers[w].token, s.workers[w].readAt + 15 * 60) {
      LeaseStep(s, a, s.workers[w].token, s.workers[w].readAt + 15 * 60);
    }
  }

  /** A reclaiming worker becomes owner exactly when the record is unfinished and its lease ended before the worker's clock reading. */
  lemma ReclaimsIff(actions: seq<Action>, w: nat)
    requires At(Run(INIT, actions), w, Reclaiming)
    ensures var s := Run(INIT, actions);
            var after := Exec(s, Reclaim(w));
            var free := s.record.Some? && s.record.value.order.None?
                        && s.record.value.lockedUntil.Some? && s.record.value.lockedUntil.value < s.workers[w].readAt;
            && (At(after, w, Owner) <==> free)
            && (free ==> Leased(after, s.workers[w].token, s.workers[w].readAt + 15 * 60)
                         && after.record.value.fingerprint == s.record.value.fingerprint)
            && (!free ==> At(after, w, Failed) && after.record == s.record)
  {
    LeaseFitsRun(INIT, actions);
  }

  predicate Moves(a: Action, w: nat) {
    !a.Tick? && !a.Sweep? && a.w == w
  }

  lemma WorkerStays(s: State, a: Action, w: nat)
    requires w in s.workers && !Moves(a, w)
    ensures w in Exec(s, a).workers && Exec(s, a).workers[w] == s.workers[w]
  {
  }

  lemma LeaseKept(s: State, a: Action, w: nat, until: Moment)
    requires TokensDistinct(s) && w in s.workers && Leased(s, s.workers[w].token, until) && s.now <= until && !Moves(a, w)
    ensures Leased(Exec(s, a), s.workers[w].token, until)
  {
    if !Leased(Exec(s, a), s.workers[w].token, until) {
      LeaseStep(s, a, s.workers[w].token, until);
    }
  }

  lemma {:induction false} LeaseLasts(s: State, more: seq<Action>, w: nat, until: Moment)
    requires Inv(s) && w in s.workers && Leased(s, s.workers[w].token, until)
    requires Run(s, more).now <= until && forall a <- more :: !Moves(a, w)
    ensures w in Run(s, more).workers && Run(s, more).workers[w] == s.workers[w]
    ensures Leased(Run(s, more), s.workers[w].token, until)
    decreases |more|
  {
    ClockOnlyRuns(s, more);
    if more != [] {
      assert more[0] in more;
      WorkerStays(s, more[0], w);
      LeaseKept(s, more[0], w, until);
      ExecKeepsInv(s, more[0]);
      LeaseLasts(Exec(s, more[0]), more[1..], w, until);
    }
  }

  /** Until its lease ends an owner keeps the record whatever the other workers do, and its order commits. */
  lemma PromptOwnerCommits(actions: seq<Action>, more: seq<Action>, w: nat, until: Moment)
    requires At(Run(INIT, actions), w, Owner) && Leased(Run(INIT, actions), Run(INIT, actions).workers[w].token, until)
    requires Run(Run(INIT, actions), more).now <= until && forall a <- more :: !Moves(a, w)
    ensures var later := Run(Run(INIT, actions), more);
            && At(later, w, Owner) && HoldsLock(later, later.workers[w].token)
            && var after := Exec(later, FinalizeAndCommit(w));
               && At(after, w, Returned(later.nextOrder))
               && |after.commits| == |later.commits| + 1
               && after.commits[|later.commits|].order == later.nextOrder
               && after.commits[|later.commits|].fingerprint == later.workers[w].fingerprint
  {
    RunKeepsInv(INIT, actions);
    LeaseLasts(Run(INIT, actions), more, w, until);
  }

  // ---- What each statement answers ----

  /** The first statement: the key is free, used by another request, finished, or in progress. */
  ghost predicate FirstLookIs(s: State, w: nat, after: State)
    requires w in s.workers
  {
    var me := s.workers[w];
    if s.record.None? then
      && At(after, w, Owner) && Leased(after, me.token, me.readAt + 15 * 60)
      && after.record.value.fingerprint == me.fingerprint && after.record.value.createdAt == s.now
    else
      && after.record == s.record
      && if s.record.value.fingerprint != me.fingerprint then At(after, w, Failed) && after.answers == s.answers
         else if s.record.value.order.Some? then
           && At(after, w, Returned(s.record.value.order.value))
           && after.answers == s.answers + [Answer(s.epoch, s.record.value.order.value, me.fingerprint, true)]
         else At(after, w, Reclaiming) && after.answers == s.answers
  }

  lemma FirstLookAnswers(s: State, w: nat)
    requires At(s, w, Started)
    ensures FirstLookIs(s, w, Exec(s, GetOrCreate(w)))
  {
  }

  /** The last statement commits exactly under the own token; who lost the record answers with the order found in it, if there is one. */
  lemma LastLookAnswers(s: State, w: nat)
    requires At(s, w, Owner) || At(s, w, LockLost)
    ensures var after := Exec(s, if At(s, w, Owner) then FinalizeAndCommit(w) else ReadBack(w));
            if At(s, w, Owner) then
              if HoldsLock(s, s.workers[w].token) then
                && after.record == Some(s.record.value.(order := Some(s.nextOrder), lockedUntil := None, lockToken := None))
                && after.answers == s.answers + [Answer(s.epoch, s.nextOrder, s.workers[w].fingerprint, false)]
              else At(after, w, LockLost) && after.record == s.record && after.commits == s.commits
            else
              && after.record == s.record && after.commits == s.commits
              && if s.record.Some? && s.record.value.order.Some? then At(after, w, Returned(s.record.value.order.value))
                 else At(after, w, Failed)
  {
  }

  /** A failed checkout deletes its own reservation and nothing else. */
  lemma ReleaseAnswers(s: State, w: nat)
    requires At(s, w, Releasing)
    ensures var after := Exec(s, Release(w));
            after.record == (if HoldsLock(s, s.workers[w].token) then None else s.record) && after.commits == s.commits
  {
  }

  /** The sweep deletes a record a day after its creation, unless a lease of it ended less than a day ago. */
  lemma SweepAnswers(s: State, moment: Moment)
    requires moment <= s.now && s.record.Some?
    ensures var after := Exec(s, Sweep(moment));
            var r := s.record.value;
            if r.createdAt + 24 * 60 * 60 < moment && (r.lockedUntil.Some? ==> r.lockedUntil.value + 24 * 60 * 60 < moment)
            then after.record.None? && after.epoch == s.epoch + 1 else after == s
  {
  }

  // ---- Whose order a replay returns ----

  predicate OnTime(stall: int, s: State, a: Action) {
    a.GetOrCreate? && At(s, a.w, Started) ==> s.now <= s.workers[a.w].readAt + stall
  }

  /** Every worker reaches the record at most `stall` seconds after it read the clock. */
  predicate Prompt(stall: int, s: State, actions: seq<Action>)
    decreases |actions|
  {
    actions == [] || (OnTime(stall, s, actions[0]) && Prompt(stall, Exec(s, actions[0]), actions[1..]))
  }

  ghost predicate OneRequest(s: State) {
    && (s.record.Some? ==> s.record.value.createdAt <= s.now)
    && (s.record.Some? && s.record.value.order.None? ==>
          s.record.value.lockedUntil.Some? && s.record.value.lockedUntil.value >= s.record.value.createdAt)
    && (forall w <- s.workers :: HoldsLock(s, s.workers[w].token) ==> s.workers[w].fingerprint == s.record.value.fingerprint)
    && (forall w <- s.workers :: s.workers[w].pc == Reclaiming && s.record.Some? && s.record.value.order.None? ==>
          s.record.value.fingerprint == s.workers[w].fingerprint || s.record.value.createdAt >= s.workers[w].readAt)
    && (forall c :: 0 <= c < |s.commits| ==> s.commits[c].recorded == s.commits[c].fingerprint)
  }

  lemma PromptStep(s: State, a: Action)
    requires TokensDistinct(s) && OneRequest(s) && OnTime(RESERVATION_TTL, s, a)
    ensures OneRequest(Exec(s, a))
  {
  }

  lemma {:induction false} PromptRun(stall: int, s: State, actions: seq<Action>)
    requires stall <= RESERVATION_TTL && Inv(s) && OneRequest(s) && Prompt(stall, s, actions)
    ensures OneRequest(Run(s, actions))
    decreases |actions|
  {
    if actions != [] {
      PromptStep(s, actions[0]);
      ExecKeepsInv(s, actions[0]);
      PromptRun(stall, Exec(s, actions[0]), actions[1..]);
    }
  }

  /** A direct replay returns the order of an identical request. */
  ghost predicate ReplayMatches(s: State, a: nat)
    requires a < |s.answers|
  {
    s.answers[a].direct ==>
      exists c :: 0 <= c < |s.commits| && s.commits[c].order == s.answers[a].order
                  && s.commits[c].epoch == s.answers[a].epoch && s.commits[c].fingerprint == s.answers[a].fingerprint
  }

  ghost predicate ReplaysMatch(s: State) {
    forall a: nat :: a < |s.answers| ==> ReplayMatches(s, a)
  }

  lemma PromptReplaysMatch(stall: int, actions: seq<Action>)
    requires stall <= RESERVATION_TTL && Prompt(stall, INIT, actions)
    ensures ReplaysMatch(Run(INIT, actions))
  {
    var s := Run(INIT, actions);
    PromptRun(stall, INIT, actions);
    forall a: nat | a < |s.answers| ensures ReplayMatches(s, a) {
      AnswersCarryTheOrder(actions, a);
    }
  }

  // The run, cut where worker 2 sees request "a" reserved, and where it takes over the record of request "b".

  const LATE := RESERVATION_TTL + 1

  const CROSSED_START := [Arrive(0, "b"), Tick(LATE), Arrive(1, "a"), GetOrCreate(1), Arrive(2, "a"), GetOrCreate(2)]
  const CROSSED_MIDDLE := [BusinessError(1), Release(1), GetOrCreate(0), Reclaim(2)]
  const CROSSED_END := [FinalizeAndCommit(2), Tick(0), Arrive(3, "b"), GetOrCreate(3)]

  const SEEN := State(LATE, 3, 0, 0, Some(Record("a", None, Some(LATE + RESERVATION_TTL), Some(1), LATE)),
                      map[0 := Worker("b", 0, 0, Started), 1 := Worker("a", LATE, 1, Owner), 2 := Worker("a", LATE, 2, Reclaiming)],
                      [], [])

  const TAKEN := State(LATE, 3, 0, 0, Some(Record("b", None, Some(LATE + RESERVATION_TTL), Some(2), LATE)),
                       map[0 := Worker("b", 0, 0, Owner), 1 := Worker("a", LATE, 1, Failed), 2 := Worker("a", LATE, 2, Owner)],
                       [], [])

  lemma CrossedStart(stall: int)
    requires stall >= LATE
    ensures Run(INIT, CROSSED_START) == SEEN && Prompt(stall, INIT, CROSSED_START)
  {
    var s1 := Exec(Exec(INIT, Arrive(0, "b")), Tick(LATE));
    var s2 := Exec(Exec(s1, Arrive(1, "a")), GetOrCreate(1));
    RunsTwo(stall, INIT, CROSSED_START);
    RunsTwo(stall, s1, CROSSED_START[2..]);
    RunsTwo(stall, s2, CROSSED_START[4..]);
    assert s2.record == SEEN.record;
    assert Exec(Exec(s2, Arrive(2, "a")), GetOrCreate(2)).workers == SEEN.workers;
  }

  lemma CrossedMiddle(stall: int)
    requires stall >= LATE
    ensures Run(SEEN, CROSSED_MIDDLE) == TAKEN && Prompt(stall, SEEN, CROSSED_MIDDLE)
  {
    var s1 := Exec(Exec(SEEN, BusinessError(1)), Release(1));
    RunsTwo(stall, SEEN, CROSSED_MIDDLE);
    RunsTwo(stall, s1, CROSSED_MIDDLE[2..]);
    assert s1.record.None?;
    assert Exec(Exec(s1, GetOrCreate(0)), Reclaim(2)).workers == TAKEN.workers;
  }

  lemma CrossedEnd(stall: int)
    requires stall >= LATE
    ensures Prompt(stall, TAKEN, CROSSED_END)
    ensures var s := Run(TAKEN, CROSSED_END);
            && s.commits == [Commit(0, 0, 2, "a", "b")]
            && s.answers == [Answer(0, 0, "a", false), Answer(0, 0, "b", true)]
  {
    var s1 := Exec(Exec(TAKEN, FinalizeAndCommit(2)), Tick(0));
    assert HoldsLock(TAKEN, 2);
    assert s1 == TAKEN.(nextOrder := 1, record := s1.record, workers := s1.workers,
                        commits := [Commit(0, 0, 2, "a", "b")], answers := [Answer(0, 0, "a", false)]);
    assert s1.record == Some(Record("b", Some(0), None, None, LATE));
    assert 3 !in s1.workers;
    RunsTwo(stall, TAKEN, CROSSED_END);
    RunsTwo(stall, s1, CROSSED_END[2..]);
  }

  lemma {:induction false} RunAppends(stall: int, s: State, first: seq<Action>, second: seq<Action>)
    ensures Run(s, first + second) == Run(Run(s, first), second)
    ensures Prompt(stall, s, first) && Prompt(stall, Run(s, first), second) ==> Prompt(stall, s, first + second)
    decreases |first|
  {
    if first == [] {
      assert first + second == second;
    } else {
      assert (first + second)[1..] == first[1..] + second;
      RunAppends(stall, Exec(s, first[0]), first[1..], second);
    }
  }

  /**
   With a longer stall it can differ: the reclaiming update does not compare
   requests, so a worker of request "a" takes over the reservation a stalled
   worker of request "b" made late, and a replay of "b" is given the order of "a".
   */
  lemma StalledReplayCrosses(stall: int)
    requires stall >= LATE
    ensures var run := CROSSED_START + CROSSED_MIDDLE + CROSSED_END;
            && Prompt(stall, INIT, run)
            && Run(INIT, run).commits == [Commit(0, 0, 2, "a", "b")]
            && Run(INIT, run).answers == [Answer(0, 0, "a", false), Answer(0, 0, "b", true)]
  {
    CrossedStart(stall);
    CrossedMiddle(stall);
    CrossedEnd(stall);
    RunAppends(stall, INIT, CROSSED_START, CROSSED_MIDDLE);
    RunAppends(stall, INIT, CROSSED_START + CROSSED_MIDDLE, CROSSED_END);
  }

  /** Replays match the request in every run with stalls of at most `stall` seconds exactly when that is within the lease. */
  lemma ReplaysMatchIffPrompt(stall: int)
    ensures (forall actions :: Prompt(stall, INIT, actions) ==> ReplaysMatch(Run(INIT, actions))) <==> stall <= RESERVATION_TTL
  {
    if stall <= RESERVATION_TTL {
      forall actions | Prompt(stall, INIT, actions) ensures ReplaysMatch(Run(INIT, actions)) {
        PromptReplaysMatch(stall, actions);
      }
    } else {
      StalledReplayCrosses(stall);
      assert !ReplayMatches(Run(INIT, CROSSED_START + CROSSED_MIDDLE + CROSSED_END), 1);
    }
  }

  lemma RunsTwo(stall: int, s: State, actions: seq<Action>)
    requires |actions| >= 2
    ensures Run(s, actions) == Run(Exec(Exec(s, actions[0]), actions[1]), actions[2..])
    ensures (&& OnTime(stall, s, actions[0])
             && OnTime(stall, Exec(s, actions[0]), actions[1])
             && Prompt(stall, Exec(Exec(s, actions[0]), actions[1]), actions[2..])) ==>
              Prompt(stall, s, actions)
  {
    assert actions[1..][1..] == actions[2..];
  }
}
