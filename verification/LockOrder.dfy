/**
 Lock order of the database transactions. Each worker takes the locks of its
 job in a fixed order and keeps them until it finishes. Any number of
 workers run at once; a worker whose next lock clashes with one that another
 worker holds waits.
 */
module LockOrder {
  import opened BillingModel

  datatype Resource =
    | TransactionRow(id: int)
    | SubscriptionRow(id: int)
    | SlotLock(id: int)
    | DepositRow(id: int)
    | ScheduleRow(id: int)
    | RoomLock(id: int)
    | TeacherLock(id: int)

  /** A foreign key check shares the row it refers to; every other claim is exclusive. */
  datatype Claim = Claim(on: Resource, shared: bool)

  predicate Conflict(a: Claim, b: Claim) {
    a.on == b.on && !(a.shared && b.shared)
  }

  /** Whoever claims a group row for itself holds nothing yet, so that claim comes first. */
  function Level(c: Claim): int {
    match c.on
    case TransactionRow(_) => 1
    case SubscriptionRow(_) => 2
    case SlotLock(_) => 3
    case DepositRow(_) => 4
    case ScheduleRow(_) => if c.shared then 5 else 0
    case RoomLock(_) => 6
    case TeacherLock(_) => 7
  }

  predicate Before(a: Claim, b: Claim) {
    Level(a) < Level(b) || (Level(a) == Level(b) && a.on.id < b.on.id)
  }

  // ---- The locks each job takes, in program order ----

  /** `deferred` says whether the foreign keys of the new enrollments are checked at the commit or at each insert. */
  datatype Job =
    | Checkout(requested: seq<int>, parent: int, useDeposit: bool, deferred: bool)
    | Confirmation(tx: int, sub: int, selected: seq<int>, parent: int)
    | Cancellation(tx: int, sub: int, parent: int)
    | StaleSweep(tx: int, sub: int, parent: int)
    | ExpirySweep(sub: int, parent: int)
    | RefundRecord(tx: int)
    | MaskCreation(schedule: int, room: int, hasRoom: bool, teacher: int, hasTeacher: bool)

  function Own(r: Resource): Claim {
    Claim(r, false)
  }

  function SlotLocks(slots: seq<int>): seq<Claim> {
    seq(|slots|, i requires 0 <= i < |slots| => Own(SlotLock(slots[i])))
  }

  function GroupShares(slots: seq<int>): seq<Claim> {
    seq(|slots|, i requires 0 <= i < |slots| => Claim(ScheduleRow(slots[i]), true))
  }

  /** Slot lock and group row in turn. */
  function Bookings(slots: seq<int>): seq<Claim> {
    seq(2 * |slots|, i requires 0 <= i < 2 * |slots| =>
      if i % 2 == 0 then Own(SlotLock(slots[i / 2])) else Claim(ScheduleRow(slots[i / 2]), true))
  }

  function Plan(job: Job): seq<Claim> {
    match job
    case Checkout(requested, parent, useDeposit, deferred) =>
      var slots := Normalize(requested);
      var deposit := if useDeposit then [Own(DepositRow(parent))] else [];
      if deferred then SlotLocks(slots) + deposit + GroupShares(slots) else Bookings(slots) + deposit
    case Confirmation(tx, sub, selected, parent) =>
      [Own(TransactionRow(tx)), Own(SubscriptionRow(sub))] + SlotLocks(Normalize(selected)) + [Own(DepositRow(parent))]
    case Cancellation(tx, sub, parent) => [Own(TransactionRow(tx)), Own(SubscriptionRow(sub)), Own(DepositRow(parent))]
    case StaleSweep(tx, sub, parent) => [Own(TransactionRow(tx)), Own(SubscriptionRow(sub)), Own(DepositRow(parent))]
    case ExpirySweep(sub, parent) => [Own(SubscriptionRow(sub)), Own(DepositRow(parent))]
    case RefundRecord(tx) => [Own(TransactionRow(tx))]
    case MaskCreation(schedule, room, hasRoom, teacher, hasTeacher) =>
      [Own(ScheduleRow(schedule))]
      + (if hasRoom then [Own(RoomLock(room))] else [])
      + (if hasTeacher then [Own(TeacherLock(teacher))] else [])
  }

  /** Whatever waits for `held` comes before `later`. */
  ghost predicate Over(held: Claim, later: Claim) {
    forall c: Claim :: Conflict(held, c) ==> Before(c, later)
  }

  ghost predicate Climbs(plan: seq<Claim>) {
    forall i, j :: 0 <= i < j < |plan| ==> Over(plan[i], plan[j])
  }

  lemma ClimbsJoin(a: seq<Claim>, b: seq<Claim>)
    requires Climbs(a) && Climbs(b) && forall x <- a, y <- b :: Over(x, y)
    ensures Climbs(a + b)
  {
    forall i, j | 0 <= i < j < |a + b| ensures Over((a + b)[i], (a + b)[j]) {
      if i < |a| <= j {
        assert a[i] in a && b[j - |a|] in b;
      }
    }
  }

  lemma SlotsClimb(slots: seq<int>)
    requires Ascending(slots)
    ensures Climbs(SlotLocks(slots)) && Climbs(GroupShares(slots)) && Climbs(Bookings(slots))
  {
    forall i, j | 0 <= i < j < 2 * |slots| ensures Over(Bookings(slots)[i], Bookings(slots)[j]) {
      assert i / 2 < j / 2 || (i / 2 == j / 2 && i % 2 == 0 && j % 2 == 1);
    }
  }

  lemma CheckoutClimbs(slots: seq<int>, deposit: seq<Claim>)
    requires Ascending(slots) && Climbs(deposit) && forall c <- deposit :: Level(c) == 4
    ensures Climbs(SlotLocks(slots) + deposit + GroupShares(slots)) && Climbs(Bookings(slots) + deposit)
  {
    SlotsClimb(slots);
    ClimbsJoin(SlotLocks(slots), deposit);
    ClimbsJoin(SlotLocks(slots) + deposit, GroupShares(slots));
    ClimbsJoin(Bookings(slots), deposit);
  }

  /** Every lock a job takes comes after everything that may wait for the locks it already holds. */
  lemma PlansClimb(job: Job)
    ensures Climbs(Plan(job))
  {
    match job
    case Checkout(requested, parent, useDeposit, deferred) =>
      CheckoutClimbs(Normalize(requested), if useDeposit then [Own(DepositRow(parent))] else []);
    case Confirmation(tx, sub, selected, parent) =>
      var slots := Normalize(selected);
      var first := [Own(TransactionRow(tx)), Own(SubscriptionRow(sub))];
      SlotsClimb(slots);
      ClimbsJoin(first, SlotLocks(slots));
      ClimbsJoin(first + SlotLocks(slots), [Own(DepositRow(parent))]);
    case Cancellation(_, _, _) =>
    case StaleSweep(_, _, _) =>
    case ExpirySweep(_, _) =>
    case RefundRecord(_) =>
    case MaskCreation(_, _, _, _, _) =>
  }

  predicate Takes(plan: seq<Claim>, c: Claim) {
    c in plan
  }

  /** A checkout takes the lock of every requested slot, shares every group row, and takes the deposit if it uses it. */
  lemma CheckoutTakes(requested: seq<int>, parent: int, useDeposit: bool, deferred: bool, slot: int)
    requires slot in requested
    ensures var plan := Plan(Checkout(requested, parent, useDeposit, deferred));
            && Takes(plan, Own(SlotLock(slot))) && Takes(plan, Claim(ScheduleRow(slot), true))
            && (Takes(plan, Own(DepositRow(parent))) <==> useDeposit)
  {
    var slots := Normalize(requested);
    var plan := Plan(Checkout(requested, parent, useDeposit, deferred));
    var k :| 0 <= k < |slots| && slots[k] == slot;
    if deferred {
      assert SlotLocks(slots)[k] == Own(SlotLock(slot)) && GroupShares(slots)[k] == Claim(ScheduleRow(slot), true);
      assert Own(SlotLock(slot)) in SlotLocks(slots) && Claim(ScheduleRow(slot), true) in GroupShares(slots);
    } else {
      assert Bookings(slots)[2 * k] == Own(SlotLock(slot)) && Bookings(slots)[2 * k + 1] == Claim(ScheduleRow(slot), true);
      assert Own(SlotLock(slot)) in Bookings(slots) && Claim(ScheduleRow(slot), true) in Bookings(slots);
    }
  }

  /** A confirmation takes its transaction, subscription, deposit and every selected slot; a mask its group, room and teacher. */
  lemma OthersTake(tx: int, sub: int, selected: seq<int>, parent: int, slot: int, schedule: int, room: int, teacher: int)
    requires slot in selected
    ensures var plan := Plan(Confirmation(tx, sub, selected, parent));
            && Takes(plan, Own(TransactionRow(tx))) && Takes(plan, Own(SubscriptionRow(sub))) && Takes(plan, Own(DepositRow(parent)))
            && Takes(plan, Own(SlotLock(slot)))
    ensures var plan := Plan(MaskCreation(schedule, room, true, teacher, true));
            Takes(plan, Own(ScheduleRow(schedule))) && Takes(plan, Own(RoomLock(room))) && Takes(plan, Own(TeacherLock(teacher)))
    ensures forall closing :: closing in {Plan(Cancellation(tx, sub, parent)), Plan(StaleSweep(tx, sub, parent))} ==>
              Takes(closing, Own(TransactionRow(tx))) && Takes(closing, Own(SubscriptionRow(sub))) && Takes(closing, Own(DepositRow(parent)))
  {
    var slots := Normalize(selected);
    var k :| 0 <= k < |slots| && slots[k] == slot;
    assert SlotLocks(slots)[k] == Own(SlotLock(slot));
    assert Own(SlotLock(slot)) in SlotLocks(slots);
    assert Plan(Confirmation(tx, sub, selected, parent))[0] == Own(TransactionRow(tx));
  }

  // ---- Workers ----

  datatype Worker = Worker(plan: seq<Claim>, held: nat)

  datatype State = State(workers: map<nat, Worker>)

  const IDLE := State(map[])

  /** `Finish` stands for a commit, a rollback or a crash. */
  datatype Action = Begin(w: nat, job: Job) | Take(w: nat) | Finish(w: nat)

  predicate Holds(me: Worker, c: Claim) {
    exists j :: 0 <= j < me.held && j < |me.plan| && me.plan[j] == c
  }

  predicate Wants(s: State, w: nat) {
    w in s.workers && s.workers[w].held < |s.workers[w].plan|
  }

  function Wanted(s: State, w: nat): Claim
    requires Wants(s, w)
  {
    s.workers[w].plan[s.workers[w].held]
  }

  /** Another worker holds a clashing claim on what w wants. */
  predicate WaitsFor(s: State, w: nat, v: nat) {
    && Wants(s, w) && v in s.workers && v != w
    && (Holds(s.workers[v], Own(Wanted(s, w).on)) || (!Wanted(s, w).shared && Holds(s.workers[v], Claim(Wanted(s, w).on, true))))
  }

  predicate CanMove(s: State, w: nat) {
    w in s.workers && forall v <- s.workers :: !WaitsFor(s, w, v)
  }

  function Exec(s: State, a: Action): State {
    match a
    case Begin(w, job) => if w in s.workers then s else State(s.workers[w := Worker(Plan(job), 0)])
    case Take(w) =>
      if Wants(s, w) && CanMove(s, w)
      then State(s.workers[w := s.workers[w].(held := s.workers[w].held + 1)])
      else s
    case Finish(w) => State(s.workers - {w})
  }

  function Run(s: State, actions: seq<Action>): State
    decreases |actions|
  {
    if actions == [] then s else Run(Exec(s, actions[0]), actions[1..])
  }

  ghost predicate Inv(s: State) {
    && (forall w <- s.workers :: s.workers[w].held <= |s.workers[w].plan| && Climbs(s.workers[w].plan))
    && Exclusive(s)
  }

  /** No two workers hold claims that clash. */
  ghost predicate Exclusive(s: State) {
    forall v, w, c, d ::
      (&& v in s.workers && w in s.workers && v != w
       && Holds(s.workers[v], c) && Holds(s.workers[w], d)) ==> !Conflict(c, d)
  }

  lemma TakeHolds(s: State, w: nat, c: Claim)
    requires Wants(s, w)
    ensures Holds(s.workers[w].(held := s.workers[w].held + 1), c) <==> Holds(s.workers[w], c) || c == Wanted(s, w)
  {
    var me := s.workers[w];
    if c == Wanted(s, w) {
      assert me.(held := me.held + 1).plan[me.held] == c;
    } else if Holds(me, c) {
      var j :| 0 <= j < me.held && j < |me.plan| && me.plan[j] == c;
      assert me.(held := me.held + 1).plan[j] == c;
    }
  }

  lemma ClashWaits(s: State, w: nat, v: nat, c: Claim)
    requires Wants(s, w) && v in s.workers && v != w && Holds(s.workers[v], c) && Conflict(Wanted(s, w), c)
    ensures WaitsFor(s, w, v)
  {
    if c.shared {
      assert c == Claim(Wanted(s, w).on, true);
    } else {
      assert c == Own(Wanted(s, w).on);
    }
  }

  lemma TakeKeepsExclusive(s: State, w: nat)
    requires Exclusive(s) && Wants(s, w) && CanMove(s, w)
    ensures Exclusive(Exec(s, Take(w)))
  {
    var after := Exec(s, Take(w));
    forall v, u, c, d | v in after.workers && u in after.workers && v != u && Holds(after.workers[v], c) && Holds(after.workers[u], d)
      ensures !Conflict(c, d)
    {
      TakeHolds(s, w, c);
      TakeHolds(s, w, d);
      if v == w && c == Wanted(s, w) && Conflict(c, d) {
        ClashWaits(s, w, u, d);
      } else if u == w && d == Wanted(s, w) && Conflict(d, c) {
        ClashWaits(s, w, v, c);
      }
    }
  }

  lemma ExecKeepsInv(s: State, a: Action)
    requires Inv(s)
    ensures Inv(Exec(s, a))
  {
    match a
    case Begin(w, job) => PlansClimb(job);
    case Take(w) =>
      if Wants(s, w) && CanMove(s, w) {
        TakeKeepsExclusive(s, w);
      }
    case Finish(_) =>
  }

  lemma {:induction false} RunKeepsInv(s: State, actions: seq<Action>)
    requires Inv(s)
    ensures Inv(Run(s, actions))
    decreases |actions|
  {
    if actions != [] {
      ExecKeepsInv(s, actions[0]);
      RunKeepsInv(Exec(s, actions[0]), actions[1..]);
    }
  }

  /** In every run, clashing claims are never held at once. */
  lemma LocksExclude(actions: seq<Action>)
    ensures Exclusive(Run(IDLE, actions))
  {
    RunKeepsInv(IDLE, actions);
  }

  // ---- No cyclic wait ----

  ghost predicate Chain(s: State, ws: seq<nat>) {
    forall i :: 0 <= i < |ws| - 1 ==> WaitsFor(s, ws[i], ws[i + 1])
  }

  ghost predicate Cycle(s: State, ws: seq<nat>) {
    ws != [] && Chain(s, ws) && WaitsFor(s, ws[|ws| - 1], ws[0])
  }

  /** Whoever holds what I want wants something further up. */
  lemma WaitClimbs(s: State, w: nat, v: nat)
    requires Inv(s) && WaitsFor(s, w, v) && Wants(s, v)
    ensures Before(Wanted(s, w), Wanted(s, v))
  {
    var c := if Holds(s.workers[v], Own(Wanted(s, w).on)) then Own(Wanted(s, w).on) else Claim(Wanted(s, w).on, true);
    var j :| 0 <= j < s.workers[v].held && s.workers[v].plan[j] == c;
    assert Over(s.workers[v].plan[j], Wanted(s, v)) && Conflict(c, Wanted(s, w));
  }

  lemma {:induction false} ChainClimbs(s: State, ws: seq<nat>)
    requires Inv(s) && |ws| >= 2 && Chain(s, ws) && Wants(s, ws[|ws| - 1])
    ensures Wants(s, ws[0]) && Before(Wanted(s, ws[0]), Wanted(s, ws[|ws| - 1]))
    decreases |ws|
  {
    assert WaitsFor(s, ws[0], ws[1]);
    if |ws| == 2 {
      WaitClimbs(s, ws[0], ws[1]);
    } else {
      var rest := ws[1..];
      assert Chain(s, rest) by {
        forall i | 0 <= i < |rest| - 1 ensures WaitsFor(s, rest[i], rest[i + 1]) {
          assert WaitsFor(s, ws[i + 1], ws[i + 2]);
        }
      }
      ChainClimbs(s, rest);
      WaitClimbs(s, ws[0], ws[1]);
    }
  }

  lemma NoCyclicWait(actions: seq<Action>, ws: seq<nat>)
    ensures !Cycle(Run(IDLE, actions), ws)
  {
    var s := Run(IDLE, actions);
    RunKeepsInv(IDLE, actions);
    if Cycle(s, ws) {
      assert |ws| >= 2 ==> WaitsFor(s, ws[0], ws[1]);
      WaitClimbs(s, ws[|ws| - 1], ws[0]);
      if |ws| >= 2 {
        ChainClimbs(s, ws);
      }
      assert false;
    }
  }

  // ---- Somebody can always move ----

  /** Among the waiting workers of a set, one wants the furthest resource. */
  lemma {:induction false} FurthestWaiter(s: State, ws: set<nat>) returns (top: nat)
    requires ws != {} && forall w <- ws :: Wants(s, w)
    ensures top in ws
    ensures forall w <- ws :: !Before(Wanted(s, top), Wanted(s, w))
    decreases |ws|
  {
    var w :| w in ws;
    if ws == {w} {
      top := w;
    } else {
      assert ws - {w} != {};
      top := FurthestWaiter(s, ws - {w});
      if Before(Wanted(s, top), Wanted(s, w)) {
        top := w;
      }
    }
  }

  lemma SomeoneCanMove(actions: seq<Action>)
    requires Run(IDLE, actions).workers != map[]
    ensures exists w :: CanMove(Run(IDLE, actions), w)
  {
    var s := Run(IDLE, actions);
    RunKeepsInv(IDLE, actions);
    var stuck := set w <- s.workers | !CanMove(s, w);
    if stuck == {} {
      var w :| w in s.workers;
      assert w !in stuck;
    } else {
      var top := FurthestWaiter(s, stuck);
      var v :| v in s.workers && WaitsFor(s, top, v);
      if v in stuck {
        WaitClimbs(s, top, v);
        assert false;
      }
      assert CanMove(s, v);
    }
  }
}
