/**
 Mask creations that interleave between their statements. A worker locks its
 group's row, then the room and the teacher of the landing, checks the regular
 grid and then the other reschedules against whatever is committed at that
 moment, and stores the mask when it commits. Locks are kept to the end.
 */
module MaskRuns {
  import opened Wrappers
  import opened Calendar
  import opened ScheduleModel
  import A = ScheduleAnswers

  datatype Pc =
    | Begin
    | RowLocked
    | RoomLocked
    | TeacherLocked
    | GridChecked
    | Ready

  datatype Worker = Worker(group: int, date: int, mask: Mask, today: int, pc: Pc)

  datatype Lock = GroupRow(id: int) | RoomLock(id: int) | TeacherLock(id: int)

  datatype State = State(masks: Masks, locks: map<Lock, nat>, workers: map<nat, Worker>)

  const NOTHING := State(map[], map[], map[])

  datatype Action =
    | Arrive(w: nat, group: int, date: int, mask: Mask, today: int)
    | LockRow(w: nat)
    | LockRoom(w: nat)
    | LockTeacher(w: nat)
    | CheckGrid(w: nat)
    | CheckMasks(w: nat)
    | Commit(w: nat)
    | Quit(w: nat)

  function Landing(grid: Grid, me: Worker): Session
    requires me.group in grid
  {
    Effective(grid[me.group], me.mask, me.date)
  }

  function Leave(s: State, w: nat): State {
    State(s.masks, map k <- s.locks | s.locks[k] != w :: s.locks[k], s.workers - {w})
  }

  function Goto(s: State, w: nat, pc: Pc): State
    requires w in s.workers
  {
    s.(workers := s.workers[w := s.workers[w].(pc := pc)])
  }

  predicate At(s: State, w: nat, pc: Pc) {
    w in s.workers && s.workers[w].pc == pc
  }

  /** Everything decided before the collision check, against the masks committed now. */
  predicate Acceptable(grid: Grid, s: State, me: Worker) {
    && me.date >= me.today && me.group in grid
    && ValidateTarget(grid[me.group], me.date).None? && CleanMask(me.mask).None?
    && MaskKey(me.group, me.date) !in s.masks
  }

  function DoLockRow(grid: Grid, s: State, w: nat): State
    requires w in s.workers
  {
    var me := s.workers[w];
    if !Acceptable(grid, s, me) then Leave(s, w)
    else if me.mask.kind == Cancellation then Goto(s, w, Ready).(locks := s.locks[GroupRow(me.group) := w])
    else Goto(s, w, RowLocked).(locks := s.locks[GroupRow(me.group) := w])
  }

  function DoLockRoom(grid: Grid, s: State, w: nat): State
    requires w in s.workers && s.workers[w].group in grid
  {
    match Landing(grid, s.workers[w]).room
    case None => Goto(s, w, RoomLocked)
    case Some(r) => if RoomLock(r) in s.locks then s else Goto(s, w, RoomLocked).(locks := s.locks[RoomLock(r) := w])
  }

  function DoLockTeacher(grid: Grid, s: State, w: nat): State
    requires w in s.workers && s.workers[w].group in grid
  {
    match Landing(grid, s.workers[w]).teacher
    case None => Goto(s, w, TeacherLocked)
    case Some(t) => if TeacherLock(t) in s.locks then s else Goto(s, w, TeacherLocked).(locks := s.locks[TeacherLock(t) := w])
  }

  /** The database refuses a second mask for the same group and date. */
  function DoCommit(s: State, w: nat): State
    requires w in s.workers
  {
    var key := MaskKey(s.workers[w].group, s.workers[w].date);
    if key in s.masks then Leave(s, w) else Leave(s, w).(masks := s.masks[key := s.workers[w].mask])
  }

  function Exec(grid: Grid, s: State, a: Action): State {
    match a
    case Arrive(w, group, date, mask, today) =>
      if w in s.workers then s else s.(workers := s.workers[w := Worker(group, date, mask, today, Begin)])
    case LockRow(w) => if At(s, w, Begin) && GroupRow(s.workers[w].group) !in s.locks then DoLockRow(grid, s, w) else s
    case LockRoom(w) => if At(s, w, RowLocked) && s.workers[w].group in grid then DoLockRoom(grid, s, w) else s
    case LockTeacher(w) => if At(s, w, RoomLocked) && s.workers[w].group in grid then DoLockTeacher(grid, s, w) else s
    case CheckGrid(w) =>
      if At(s, w, TeacherLocked) && s.workers[w].group in grid then
        if GridFields(grid, s.masks, Landing(grid, s.workers[w]), s.workers[w].group) != {} then Leave(s, w)
        else Goto(s, w, GridChecked)
      else s
    case CheckMasks(w) =>
      if At(s, w, GridChecked) && s.workers[w].group in grid then
        if MaskFields(grid, s.masks, Landing(grid, s.workers[w]), s.workers[w].group) != {} then Leave(s, w)
        else Goto(s, w, Ready)
      else s
    case Commit(w) => if At(s, w, Ready) then DoCommit(s, w) else s
    case Quit(w) => Leave(s, w)
  }

  function Run(grid: Grid, s: State, actions: seq<Action>): State
    decreases |actions|
  {
    if actions == [] then s else Run(grid, Exec(grid, s, actions[0]), actions[1..])
  }

  // ---- Invariant ----

  predicate HasRow(pc: Pc) {
    pc != Begin
  }

  predicate HasRoom(pc: Pc) {
    pc in {RoomLocked, TeacherLocked, GridChecked, Ready}
  }

  predicate HasTeacher(pc: Pc) {
    pc in {TeacherLocked, GridChecked, Ready}
  }

  predicate Checked(pc: Pc) {
    pc in {GridChecked, Ready}
  }

  ghost predicate LocksFit(grid: Grid, s: State) {
    forall w <- s.workers :: WorkerLocks(grid, s, w, s.workers[w])
  }

  ghost predicate Has(s: State, w: nat, lock: Lock) {
    lock in s.locks && s.locks[lock] == w
  }

  ghost predicate WorkerLocks(grid: Grid, s: State, w: nat, me: Worker) {
    && (HasRow(me.pc) ==> Acceptable(grid, s, me) && Has(s, w, GroupRow(me.group)))
    && (HasRow(me.pc) && me.mask.kind == Reschedule ==>
          && (HasRoom(me.pc) && Landing(grid, me).room.Some? ==> Has(s, w, RoomLock(Landing(grid, me).room.value)))
          && (HasTeacher(me.pc) && Landing(grid, me).teacher.Some? ==> Has(s, w, TeacherLock(Landing(grid, me).teacher.value))))
  }

  /** What a worker has checked still holds of the masks committed since. */
  ghost predicate ChecksStand(grid: Grid, masks: Masks, me: Worker)
    requires me.group in grid
  {
    me.mask.kind == Reschedule ==>
      && (Checked(me.pc) ==> GridFree(grid, masks, Landing(grid, me), me.group))
      && (me.pc == Ready ==> LandingsFree(grid, masks, Landing(grid, me), me.group))
  }

  ghost predicate AllStand(grid: Grid, s: State) {
    forall w <- s.workers :: HasRow(s.workers[w].pc) ==> s.workers[w].group in grid && ChecksStand(grid, s.masks, s.workers[w])
  }

  ghost predicate Inv(grid: Grid, s: State) {
    GridOk(grid) && MasksOk(grid, s.masks) && NoClashes(grid, s.masks) && LocksFit(grid, s) && AllStand(grid, s)
  }

  lemma LeaveKeepsInv(grid: Grid, s: State, w: nat)
    requires Inv(grid, s)
    ensures Inv(grid, Leave(s, w))
  {
    var after := Leave(s, w);
    forall v | v in after.workers ensures WorkerLocks(grid, after, v, after.workers[v]) {
      assert WorkerLocks(grid, s, v, s.workers[v]);
    }
  }

  /** A worker moves on, taking locks nobody has. */
  lemma MoveKeepsInv(grid: Grid, s: State, after: State, w: nat)
    requires Inv(grid, s) && w in s.workers
    requires after.masks == s.masks && after.workers.Keys == s.workers.Keys
    requires forall v <- s.workers :: v != w ==> after.workers[v] == s.workers[v]
    requires forall k <- s.locks :: k in after.locks && after.locks[k] == s.locks[k]
    requires WorkerLocks(grid, after, w, after.workers[w])
    requires HasRow(after.workers[w].pc) ==> after.workers[w].group in grid && ChecksStand(grid, s.masks, after.workers[w])
    ensures Inv(grid, after)
  {
    forall v | v in after.workers ensures WorkerLocks(grid, after, v, after.workers[v]) {
      assert WorkerLocks(grid, s, v, s.workers[v]);
    }
  }

  lemma LockRowKeepsInv(grid: Grid, s: State, w: nat)
    requires Inv(grid, s) && At(s, w, Begin) && GroupRow(s.workers[w].group) !in s.locks
    ensures Inv(grid, DoLockRow(grid, s, w))
  {
    var me := s.workers[w];
    var after := DoLockRow(grid, s, w);
    if !Acceptable(grid, s, me) {
      LeaveKeepsInv(grid, s, w);
    } else {
      MoveKeepsInv(grid, s, after, w);
    }
  }

  lemma LockRoomKeepsInv(grid: Grid, s: State, w: nat)
    requires Inv(grid, s) && At(s, w, RowLocked) && s.workers[w].group in grid
    ensures Inv(grid, DoLockRoom(grid, s, w))
  {
    assert WorkerLocks(grid, s, w, s.workers[w]);
    if DoLockRoom(grid, s, w) != s {
      MoveKeepsInv(grid, s, DoLockRoom(grid, s, w), w);
    }
  }

  lemma LockTeacherKeepsInv(grid: Grid, s: State, w: nat)
    requires Inv(grid, s) && At(s, w, RoomLocked) && s.workers[w].group in grid
    ensures Inv(grid, DoLockTeacher(grid, s, w))
  {
    assert WorkerLocks(grid, s, w, s.workers[w]);
    if DoLockTeacher(grid, s, w) != s {
      MoveKeepsInv(grid, s, DoLockTeacher(grid, s, w), w);
    }
  }

  lemma CheckKeepsInv(grid: Grid, s: State, w: nat, pc: Pc)
    requires Inv(grid, s) && w in s.workers && s.workers[w].group in grid
    requires (At(s, w, TeacherLocked) && pc == GridChecked) || (At(s, w, GridChecked) && pc == Ready)
    requires ChecksStand(grid, s.masks, s.workers[w].(pc := pc))
    ensures Inv(grid, Goto(s, w, pc))
  {
    assert WorkerLocks(grid, s, w, s.workers[w]);
    MoveKeepsInv(grid, s, Goto(s, w, pc), w);
  }

  // ---- The commit ----

  /** One more mask never adds a regular session. */
  lemma GridStaysFree(grid: Grid, masks: Masks, key: MaskKey, m: Mask, session: Session, exclude: int)
    requires GridFree(grid, masks, session, exclude)
    ensures GridFree(grid, masks[key := m], session, exclude)
  {
    var after := masks[key := m];
    forall g, f ensures !GridHit(grid, after, session, exclude, g, f) {
      assert !GridHit(grid, masks, session, exclude, g, f);
    }
  }

  /** One more landing does not touch a landing that shares no locked resource with it. */
  lemma LandingsStayFree(grid: Grid, masks: Masks, key: MaskKey, m: Mask, session: Session, exclude: int)
    requires LandingsFree(grid, masks, session, exclude) && key !in masks && key.group in grid
    requires m.kind == Reschedule ==>
               var landing := Effective(grid[key.group], m, key.date);
               !Same(session.room, landing.room) && !Same(session.teacher, landing.teacher)
    ensures LandingsFree(grid, masks[key := m], session, exclude)
  {
    var after := masks[key := m];
    forall k, f ensures !MaskHit(grid, after, session, exclude, k, f) {
      assert !MaskHit(grid, masks, session, exclude, k, f);
    }
  }

  /** Two workers that both hold their landings' resources share none. */
  lemma DisjointResources(grid: Grid, s: State, v: nat, w: nat)
    requires Inv(grid, s) && v in s.workers && w in s.workers && v != w
    requires HasTeacher(s.workers[v].pc) && HasTeacher(s.workers[w].pc)
    requires s.workers[v].mask.kind == Reschedule && s.workers[w].mask.kind == Reschedule
    requires s.workers[v].group in grid && s.workers[w].group in grid
    ensures !Same(Landing(grid, s.workers[v]).room, Landing(grid, s.workers[w]).room)
    ensures !Same(Landing(grid, s.workers[v]).teacher, Landing(grid, s.workers[w]).teacher)
  {
    assert WorkerLocks(grid, s, v, s.workers[v]);
    assert WorkerLocks(grid, s, w, s.workers[w]);
  }

  lemma OtherChecksStand(grid: Grid, s: State, w: nat, v: nat)
    requires Inv(grid, s) && At(s, w, Ready) && v in s.workers && v != w && HasRow(s.workers[v].pc)
    requires MaskKey(s.workers[w].group, s.workers[w].date) !in s.masks && s.workers[w].group in grid
    ensures s.workers[v].group in grid
    ensures ChecksStand(grid, s.masks[MaskKey(s.workers[w].group, s.workers[w].date) := s.workers[w].mask], s.workers[v])
  {
    var key := MaskKey(s.workers[w].group, s.workers[w].date);
    var other := s.workers[v];
    if other.mask.kind == Reschedule && Checked(other.pc) {
      GridStaysFree(grid, s.masks, key, s.workers[w].mask, Landing(grid, other), other.group);
      if other.pc == Ready {
        if s.workers[w].mask.kind == Reschedule {
          DisjointResources(grid, s, v, w);
        }
        LandingsStayFree(grid, s.masks, key, s.workers[w].mask, Landing(grid, other), other.group);
      }
    }
  }

  lemma CommitLocks(grid: Grid, s: State, w: nat, v: nat)
    requires Inv(grid, s) && At(s, w, Ready) && v in s.workers && v != w
    ensures WorkerLocks(grid, DoCommit(s, w), v, s.workers[v])
  {
    assert WorkerLocks(grid, s, v, s.workers[v]);
    assert WorkerLocks(grid, s, w, s.workers[w]);
  }

  /** The row lock makes the uniqueness failure impossible. */
  lemma CommitAlwaysStores(grid: Grid, s: State, w: nat)
    requires Inv(grid, s) && At(s, w, Ready)
    ensures MaskKey(s.workers[w].group, s.workers[w].date) !in s.masks
    ensures Acceptable(grid, s, s.workers[w])
  {
    assert WorkerLocks(grid, s, w, s.workers[w]);
  }

  lemma CommitKeepsInv(grid: Grid, s: State, w: nat)
    requires Inv(grid, s) && At(s, w, Ready)
    ensures Inv(grid, DoCommit(s, w))
  {
    var me := s.workers[w];
    var after := DoCommit(s, w);
    CommitAlwaysStores(grid, s, w);
    StoringKeepsNoClashes(grid, s.masks, me.group, me.date, me.mask);
    forall v | v in after.workers
      ensures WorkerLocks(grid, after, v, after.workers[v])
      ensures HasRow(after.workers[v].pc) ==> after.workers[v].group in grid && ChecksStand(grid, after.masks, after.workers[v])
    {
      CommitLocks(grid, s, w, v);
      if HasRow(s.workers[v].pc) {
        OtherChecksStand(grid, s, w, v);
      }
    }
  }

  lemma ArriveKeepsInv(grid: Grid, s: State, w: nat, me: Worker)
    requires Inv(grid, s) && w !in s.workers && me.pc == Begin
    ensures Inv(grid, s.(workers := s.workers[w := me]))
  {
    var after := s.(workers := s.workers[w := me]);
    forall v | v in after.workers ensures WorkerLocks(grid, after, v, after.workers[v]) {
      if v != w {
        assert WorkerLocks(grid, s, v, s.workers[v]);
      }
    }
  }

  lemma ExecKeepsInv(grid: Grid, s: State, a: Action)
    requires Inv(grid, s)
    ensures Inv(grid, Exec(grid, s, a))
  {
    match a
    case Arrive(w, group, date, mask, today) =>
      if w !in s.workers {
        ArriveKeepsInv(grid, s, w, Worker(group, date, mask, today, Begin));
      }
    case LockRow(w) =>
      if At(s, w, Begin) && GroupRow(s.workers[w].group) !in s.locks {
        LockRowKeepsInv(grid, s, w);
      }
    case LockRoom(w) =>
      if At(s, w, RowLocked) && s.workers[w].group in grid {
        LockRoomKeepsInv(grid, s, w);
      }
    case LockTeacher(w) =>
      if At(s, w, RoomLocked) && s.workers[w].group in grid {
        LockTeacherKeepsInv(grid, s, w);
      }
    case CheckGrid(w) =>
      if At(s, w, TeacherLocked) && s.workers[w].group in grid {
        CheckGridKeepsInv(grid, s, w);
      }
    case CheckMasks(w) =>
      if At(s, w, GridChecked) && s.workers[w].group in grid {
        CheckMasksKeepsInv(grid, s, w);
      }
    case Commit(w) =>
      if At(s, w, Ready) {
        CommitKeepsInv(grid, s, w);
      }
    case Quit(w) => LeaveKeepsInv(grid, s, w);
  }

  lemma CheckGridKeepsInv(grid: Grid, s: State, w: nat)
    requires Inv(grid, s) && At(s, w, TeacherLocked) && s.workers[w].group in grid
    ensures Inv(grid, Exec(grid, s, CheckGrid(w)))
  {
    NoFieldsMeansFree(grid, s.masks, Landing(grid, s.workers[w]), s.workers[w].group);
    if GridFields(grid, s.masks, Landing(grid, s.workers[w]), s.workers[w].group) != {} {
      LeaveKeepsInv(grid, s, w);
    } else {
      CheckKeepsInv(grid, s, w, GridChecked);
    }
  }

  lemma CheckMasksKeepsInv(grid: Grid, s: State, w: nat)
    requires Inv(grid, s) && At(s, w, GridChecked) && s.workers[w].group in grid
    ensures Inv(grid, Exec(grid, s, CheckMasks(w)))
  {
    NoFieldsMeansFree(grid, s.masks, Landing(grid, s.workers[w]), s.workers[w].group);
    assert ChecksStand(grid, s.masks, s.workers[w]);
    if MaskFields(grid, s.masks, Landing(grid, s.workers[w]), s.workers[w].group) != {} {
      LeaveKeepsInv(grid, s, w);
    } else {
      CheckKeepsInv(grid, s, w, Ready);
    }
  }

  lemma {:induction false} RunKeepsInv(grid: Grid, s: State, actions: seq<Action>)
    requires Inv(grid, s)
    ensures Inv(grid, Run(grid, s, actions))
    decreases |actions|
  {
    if actions != [] {
      ExecKeepsInv(grid, s, actions[0]);
      RunKeepsInv(grid, Exec(grid, s, actions[0]), actions[1..]);
    }
  }

  /**
   Over a fixed grid that meets its exclusion constraints, no interleaving of
   mask creations ever lets two sessions shown in one week clash.
   */
  lemma CalendarNeverClashes(grid: Grid, actions: seq<Action>)
    requires GridOk(grid)
    ensures NoClashes(grid, Run(grid, NOTHING, actions).masks)
    ensures A.NobodyBlocked(grid, Run(grid, NOTHING, actions).masks)
  {
    BareGridHasNoClashes(grid);
    RunKeepsInv(grid, NOTHING, actions);
    A.NoClashesMeansNobodyBlocked(grid, Run(grid, NOTHING, actions).masks);
  }

  /** In no interleaving does a commit run into a mask stored for its group and date. */
  lemma UniquenessNeverFires(grid: Grid, actions: seq<Action>, w: nat)
    requires GridOk(grid) && At(Run(grid, NOTHING, actions), w, Ready)
    ensures var s := Run(grid, NOTHING, actions);
            MaskKey(s.workers[w].group, s.workers[w].date) !in s.masks
  {
    BareGridHasNoClashes(grid);
    RunKeepsInv(grid, NOTHING, actions);
    CommitAlwaysStores(grid, Run(grid, NOTHING, actions), w);
  }

  // ---- Interleaved creations against creations run alone ----

  /** Every commit of a run stores exactly what the creation would store, run alone at that moment. */
  lemma CommitIsCreation(grid: Grid, actions: seq<Action>, w: nat)
    requires GridOk(grid) && At(Run(grid, NOTHING, actions), w, Ready)
    ensures var s := Run(grid, NOTHING, actions);
            var me := s.workers[w];
            CreateMask(grid, s.masks, me.today, me.group, me.date, me.mask) == Success(Exec(grid, s, Commit(w)).masks)
  {
    var s := Run(grid, NOTHING, actions);
    BareGridHasNoClashes(grid);
    RunKeepsInv(grid, NOTHING, actions);
    CommitAlwaysStores(grid, s, w);
    assert ChecksStand(grid, s.masks, s.workers[w]);
    NoFieldsMeansFree(grid, s.masks, Landing(grid, s.workers[w]), s.workers[w].group);
  }

  /** The statements of one creation. */
  function Statements(w: nat): seq<Action> {
    [LockRow(w), LockRoom(w), LockTeacher(w), CheckGrid(w), CheckMasks(w), Commit(w)]
  }

  lemma RunSix(grid: Grid, s: State, a: Action, b: Action, c: Action, d: Action, e: Action, f: Action)
    ensures Run(grid, s, [a, b, c, d, e, f])
         == Exec(grid, Exec(grid, Exec(grid, Exec(grid, Exec(grid, Exec(grid, s, a), b), c), d), e), f)
  {
    var s1 := Exec(grid, s, a);
    var s2 := Exec(grid, s1, b);
    var s3 := Exec(grid, s2, c);
    var s4 := Exec(grid, s3, d);
    assert [a, b, c, d, e, f] == [a] + [b, c, d, e, f] && [b, c, d, e, f] == [b] + [c, d, e, f];
    assert [c, d, e, f] == [c] + [d, e, f] && [d, e, f] == [d] + [e, f] && [e, f] == [e] + [f] && [f] == [f] + [];
    RunCons(grid, s, a, [b, c, d, e, f]);
    RunCons(grid, s1, b, [c, d, e, f]);
    RunCons(grid, s2, c, [d, e, f]);
    RunCons(grid, s3, d, [e, f]);
    RunCons(grid, s4, e, [f]);
    RunCons(grid, Exec(grid, s4, e), f, []);
  }

  lemma RunCons(grid: Grid, s: State, a: Action, rest: seq<Action>)
    ensures Run(grid, s, [a] + rest) == Run(grid, Exec(grid, s, a), rest)
  {
    assert ([a] + rest)[1..] == rest;
  }

  /** Holding all its locks, before the checks. */
  lemma SoloLocks(grid: Grid, s: State, w: nat)
    requires At(s, w, Begin) && s.locks == map[] && Acceptable(grid, s, s.workers[w]) && s.workers[w].mask.kind == Reschedule
    ensures var locked := Exec(grid, Exec(grid, Exec(grid, s, LockRow(w)), LockRoom(w)), LockTeacher(w));
            && At(locked, w, TeacherLocked) && locked.masks == s.masks
            && locked.workers[w] == s.workers[w].(pc := TeacherLocked)
  {
  }

  lemma SoloChecks(grid: Grid, s: State, w: nat)
    requires At(s, w, TeacherLocked) && s.workers[w].group in grid && s.workers[w].mask.kind == Reschedule
    requires Acceptable(grid, s, s.workers[w])
    ensures var me := s.workers[w];
            Exec(grid, Exec(grid, Exec(grid, s, CheckGrid(w)), CheckMasks(w)), Commit(w)).masks
            == A.MasksAfter(s.masks, CreateMask(grid, s.masks, me.today, me.group, me.date, me.mask))
  {
  }

  /** A creation that no other worker disturbs does exactly what the one-step creation does. */
  lemma AloneIsCreation(grid: Grid, s: State, w: nat)
    requires At(s, w, Begin) && s.locks == map[]
    ensures var me := s.workers[w];
            Run(grid, s, Statements(w)).masks
            == A.MasksAfter(s.masks, CreateMask(grid, s.masks, me.today, me.group, me.date, me.mask))
  {
    RunSix(grid, s, LockRow(w), LockRoom(w), LockTeacher(w), CheckGrid(w), CheckMasks(w), Commit(w));
    if Acceptable(grid, s, s.workers[w]) && s.workers[w].mask.kind == Reschedule {
      SoloLocks(grid, s, w);
      SoloChecks(grid, Exec(grid, Exec(grid, Exec(grid, s, LockRow(w)), LockRoom(w)), LockTeacher(w)), w);
    } else {
      SoloRest(grid, s, w);
    }
  }

  lemma SoloRest(grid: Grid, s: State, w: nat)
    requires At(s, w, Begin) && s.locks == map[]
    requires !(Acceptable(grid, s, s.workers[w]) && s.workers[w].mask.kind == Reschedule)
    ensures var me := s.workers[w];
            var locked := Exec(grid, Exec(grid, Exec(grid, s, LockRow(w)), LockRoom(w)), LockTeacher(w));
            Exec(grid, Exec(grid, Exec(grid, locked, CheckGrid(w)), CheckMasks(w)), Commit(w)).masks
            == A.MasksAfter(s.masks, CreateMask(grid, s.masks, me.today, me.group, me.date, me.mask))
  {
    var one := Exec(grid, s, LockRow(w));
    if Acceptable(grid, s, s.workers[w]) {
      assert At(one, w, Ready) && Exec(grid, one, LockRoom(w)) == one;
    } else {
      assert w !in one.workers && Exec(grid, one, LockRoom(w)) == one;
    }
  }
}
