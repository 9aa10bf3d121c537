/**
 What an expiry sweep releases when other workers run in between: the sweep
 picks its registrations first and reaches them one by one, so a payment may be
 confirmed on the way.
 */
module EventSweeps {
  import opened Wrappers
  import opened Events

  /** The confirmation finds the row unpaid and not locked by a release. */
  predicate TakesEffect(s: State, id: nat) {
    && !RowLocked(s, id) && id in s.db.registrations
    && (s.db.registrations[id].status == New || s.db.registrations[id].status == PendingPayment)
  }

  /** Whether one of the actions confirms the registration. */
  predicate ConfirmedDuring(s: State, actions: seq<Action>, id: nat) {
    actions != []
    && var last := |actions| - 1;
       || ConfirmedDuring(s, actions[..last], id)
       || (actions[last] == ConfirmRow(id) && TakesEffect(Run(s, actions[..last]), id))
  }

  /** The worker starts no other cancellation: everything it cancels comes from its one selection. */
  predicate SameSweep(w: nat, actions: seq<Action>) {
    forall a <- actions :: !(a.SelectExpired? && a.w == w) && !(a.ReadRegistration? && a.w == w)
  }

  function Selection(s: State): seq<nat> {
    ExpiredIds(s.db, s.now, s.db.next)
  }

  /** What the worker still holds of its selection. */
  predicate FromSelection(ids: seq<nat>, me: Worker) {
    && (forall id <- me.queue :: id in ids)
    && (me.pc.Canceling? || me.pc.Releasing? || me.pc.Released? ==> me.pc.id in ids)
  }

  /** A selected registration changes only its status: it is confirmed if that took effect, and canceled at most once. */
  ghost predicate RowSince(start: Db, s: State, id: nat, confirmed: bool) {
    && id in start.registrations && id in s.db.registrations
    && s.db.registrations[id] == start.registrations[id].(status := s.db.registrations[id].status)
    && (s.db.registrations[id].status == Canceled
        || s.db.registrations[id].status == if confirmed then Confirmed else PendingPayment)
  }

  /** After `done`, run from the state right after the selection made in `start`. */
  ghost predicate SweepTells(start: State, w: nat, done: seq<Action>)
    requires Ready(start, w)
  {
    var chosen := Exec(start, SelectExpired(w));
    var s := Run(chosen, done);
    && Inv(s) && s.now >= start.now
    && w in s.workers && FromSelection(Selection(start), s.workers[w])
    && forall id <- Selection(start) :: id < s.db.next && RowSince(start.db, s, id, ConfirmedDuring(chosen, done, id))
  }

  lemma RowStep(start: Db, s: State, a: Action, id: nat, confirmed: bool)
    requires Inv(s) && id < s.db.next && RowSince(start, s, id, confirmed)
    ensures RowSince(start, Exec(s, a), id, confirmed || (a == ConfirmRow(id) && TakesEffect(s, id)))
    ensures id < Exec(s, a).db.next
  {
    StepIsAtomic(s, a);
  }

  lemma WorkerStep(ids: seq<nat>, s: State, a: Action, w: nat)
    requires w in s.workers && FromSelection(ids, s.workers[w])
    requires !(a.SelectExpired? && a.w == w) && !(a.ReadRegistration? && a.w == w)
    ensures w in Exec(s, a).workers && FromSelection(ids, Exec(s, a).workers[w])
  {
  }

  lemma {:induction false} SweepRun(start: State, w: nat, done: seq<Action>)
    requires Inv(start) && Ready(start, w) && start.workers[w].queue == [] && SameSweep(w, done)
    ensures SweepTells(start, w, done)
    decreases |done|
  {
    var chosen := Exec(start, SelectExpired(w));
    if done == [] {
      ExecKeepsInv(start, SelectExpired(w));
    } else {
      var last := |done| - 1;
      var s, a := Run(chosen, done[..last]), done[last];
      SweepRun(start, w, done[..last]);
      ExecKeepsInv(s, a);
      WorkerStep(Selection(start), s, a, w);
      forall id | id in Selection(start)
        ensures id < Exec(s, a).db.next && RowSince(start.db, Exec(s, a), id, ConfirmedDuring(chosen, done, id))
      {
        RowStep(start.db, s, a, id, ConfirmedDuring(chosen, done[..last], id));
      }
    }
  }

  /**
   Whatever else runs, a sweep releases only registrations that were unpaid and
   overdue when it selected them, and at the moment of the release such a
   registration is confirmed exactly when a confirmation took effect in between.
   */
  lemma SweepReleasesOverdue(db: Db, now: Moment, before: seq<Action>, w: nat, between: seq<Action>)
    requires SeatsExact(db) && SameSweep(w, between)
    requires var start := Run(Begin(db, now), before); Ready(start, w) && start.workers[w].queue == []
    requires var chosen := Exec(Run(Begin(db, now), before), SelectExpired(w)); Commits(Run(chosen, between), w)
    ensures var start := Run(Begin(db, now), before);
            var chosen := Exec(start, SelectExpired(w));
            var s := Run(chosen, between);
            var id := s.workers[w].pc.id;
            && id in start.db.registrations && Expired(start.db.registrations[id], start.now)
            && Exec(s, CommitRelease(w)).released == s.released + [id]
            && (s.db.registrations[id].status == Confirmed <==> ConfirmedDuring(chosen, between, id))
            && (Expired(s.db.registrations[id], s.now) <==> !ConfirmedDuring(chosen, between, id))
  {
    var start := Run(Begin(db, now), before);
    var chosen := Exec(start, SelectExpired(w));
    var s := Run(chosen, between);
    RunIsSerial(db, now, before);
    SweepRun(start, w, between);
    assert CancelTells(s, w);
  }

  lemma {:induction false} NeverConfirmed(s: State, actions: seq<Action>, id: nat)
    requires ConfirmRow(id) !in actions
    ensures !ConfirmedDuring(s, actions, id)
  {
    if actions != [] {
      NeverConfirmed(s, actions[..|actions| - 1], id);
    }
  }

  /** When nobody confirms what the sweep is about to release, it is unpaid and overdue to the end. */
  lemma UnconfirmedSweepIsRight(db: Db, now: Moment, before: seq<Action>, w: nat, between: seq<Action>)
    requires SeatsExact(db) && SameSweep(w, between)
    requires var start := Run(Begin(db, now), before); Ready(start, w) && start.workers[w].queue == []
    requires var s := Run(Exec(Run(Begin(db, now), before), SelectExpired(w)), between);
             Commits(s, w) && ConfirmRow(s.workers[w].pc.id) !in between
    ensures var s := Run(Exec(Run(Begin(db, now), before), SelectExpired(w)), between);
            Expired(s.db.registrations[s.workers[w].pc.id], s.now)
  {
    var chosen := Exec(Run(Begin(db, now), before), SelectExpired(w));
    SweepReleasesOverdue(db, now, before, w, between);
    NeverConfirmed(chosen, between, Run(chosen, between).workers[w].pc.id);
  }
}
