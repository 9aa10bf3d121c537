/**
 The weekly schedule, its one-off masks, and the rules that keep the shown
 calendar free of clashes. Dates are day numbers; times of day are minutes;
 a session occupies the half-open interval from start to end.
 */
module ScheduleModel {
  import opened Wrappers
  import opened Calendar

  /** A weekly group; `day`, `start` and `end` are the denormalised columns. */
  datatype Schedule = Schedule(
    active: bool,
    activityActive: bool,
    day: int,
    start: int,
    end: int,
    room: Option<int>,
    teacher: Option<int>)

  datatype MaskKind = Cancellation | Reschedule

  datatype Mask = Mask(
    kind: MaskKind,
    newDay: Option<int>,
    newStart: Option<int>,
    newEnd: Option<int>,
    newRoom: Option<int>,
    newTeacher: Option<int>)

  /** Database rule: one mask per group and date. */
  datatype MaskKey = MaskKey(group: int, date: int)

  datatype Session = Session(date: int, day: int, start: int, end: int, room: Option<int>, teacher: Option<int>)

  type Grid = map<int, Schedule>
  type Masks = map<MaskKey, Mask>

  predicate Overlap(start1: int, end1: int, start2: int, end2: int) {
    start1 < end2 && start2 < end1
  }

  predicate Same(a: Option<int>, b: Option<int>) {
    a.Some? && a == b
  }

  predicate Clash(a: Session, b: Session) {
    a.date == b.date && Overlap(a.start, a.end, b.start, b.end) && (Same(a.room, b.room) || Same(a.teacher, b.teacher))
  }

  /** The check constraints and the two exclusion constraints of the weekly grid. */
  ghost predicate GridOk(grid: Grid) {
    && (forall g <- grid :: 0 <= grid[g].day <= 6 && grid[g].start < grid[g].end)
    && (forall g, h :: g in grid && h in grid && g != h && grid[g].active && grid[h].active
                       && grid[g].day == grid[h].day && Overlap(grid[g].start, grid[g].end, grid[h].start, grid[h].end) ==>
          !Same(grid[g].room, grid[h].room) && !Same(grid[g].teacher, grid[h].teacher))
  }

  // ---- What the calendar shows ----

  function OrElse(value: Option<int>, fallback: int): int {
    match value
    case None => fallback
    case Some(v) => v
  }

  function OrKeep(value: Option<int>, fallback: Option<int>): Option<int> {
    if value.Some? then value else fallback
  }

  /** Where a rescheduled session lands; empty fields keep the group's own value. */
  function Effective(s: Schedule, m: Mask, target: int): Session {
    var day := OrElse(m.newDay, s.day);
    Session(WeekStart(target) + day, day, OrElse(m.newStart, s.start), OrElse(m.newEnd, s.end),
            OrKeep(m.newRoom, s.room), OrKeep(m.newTeacher, s.teacher))
  }

  function Regular(s: Schedule, monday: int): Session {
    Session(monday + s.day, s.day, s.start, s.end, s.room, s.teacher)
  }

  datatype WeekSlot = WeekSlot(group: int, session: Session, rescheduled: bool, cancelled: bool)

  predicate Visible(s: Schedule) {
    s.active && s.activityActive
  }

  /** One group's line in the grid of the week starting on `monday`. */
  function ProjectSchedule(grid: Grid, masks: Masks, g: int, monday: int): WeekSlot
    requires g in grid
  {
    var s := grid[g];
    var key := MaskKey(g, monday + s.day);
    if key !in masks then WeekSlot(g, Regular(s, monday), false, false)
    else if masks[key].kind == Cancellation then WeekSlot(g, Regular(s, monday), false, true)
    else WeekSlot(g, ApplyReschedule(s, masks[key], monday), true, false)
  }

  function ApplyReschedule(s: Schedule, m: Mask, monday: int): Session {
    var day := OrElse(m.newDay, s.day);
    Session(monday + day, day, OrElse(m.newStart, s.start), OrElse(m.newEnd, s.end),
            OrKeep(m.newRoom, s.room), OrKeep(m.newTeacher, s.teacher))
  }

  /** No two sessions shown in one week, unless canceled, meet in a room or with a teacher. */
  ghost predicate NoClashes(grid: Grid, masks: Masks) {
    forall monday, g, h ::
      Weekday(monday) == 0 && g in grid && h in grid && g != h && Visible(grid[g]) && Visible(grid[h])
      && !ProjectSchedule(grid, masks, g, monday).cancelled && !ProjectSchedule(grid, masks, h, monday).cancelled ==>
        !Clash(ProjectSchedule(grid, masks, g, monday).session, ProjectSchedule(grid, masks, h, monday).session)
  }

  // ---- Validation of one mask ----

  datatype Field = NewRoom | NewTeacher

  datatype MaskError =
    | PastDate
    | UnknownSchedule
    | InactiveSchedule
    | WrongWeekday
    | DayOutOfRange
    | CancellationOverrides
    | MissingTimes
    | EndBeforeStart
    | AlreadyMasked
    | Busy(fields: set<Field>)

  /** Field and model validation, in the order the messages are decided here. */
  function CleanMask(m: Mask): Option<MaskError> {
    if m.newDay.Some? && !(0 <= m.newDay.value <= 6) then Some(DayOutOfRange)
    else if m.kind == Cancellation then
      if m.newDay.Some? || m.newStart.Some? || m.newEnd.Some? || m.newRoom.Some? || m.newTeacher.Some?
      then Some(CancellationOverrides) else None
    else if m.newStart.None? || m.newEnd.None? then Some(MissingTimes)
    else if m.newEnd.value <= m.newStart.value then Some(EndBeforeStart)
    else None
  }

  function ValidateTarget(s: Schedule, date: int): Option<MaskError> {
    if !s.active then Some(InactiveSchedule)
    else if Weekday(date) != s.day then Some(WrongWeekday)
    else None
  }

  predicate Hits(session: Session, room: Option<int>, teacher: Option<int>, f: Field) {
    match f
    case NewRoom => Same(session.room, room)
    case NewTeacher => Same(session.teacher, teacher)
  }

  /** A group whose regular session stands in the way on that date; a masked date is out of the regular grid. */
  predicate GridOccupant(grid: Grid, masks: Masks, session: Session, exclude: int, g: int) {
    && g in grid && g != exclude && Visible(grid[g])
    && grid[g].day == session.day && Overlap(grid[g].start, grid[g].end, session.start, session.end)
    && MaskKey(g, session.date) !in masks
  }

  /** Another rescheduled session of the same week that lands on that date and time. */
  predicate MaskOccupant(grid: Grid, masks: Masks, session: Session, exclude: int, key: MaskKey) {
    && key in masks && masks[key].kind == Reschedule && key.group != exclude
    && WeekStart(session.date) <= key.date <= WeekStart(session.date) + 6
    && key.group in grid && Visible(grid[key.group])
    && var landing := Effective(grid[key.group], masks[key], key.date);
       landing.date == session.date && Overlap(landing.start, landing.end, session.start, session.end)
  }

  predicate BusyOnGrid(grid: Grid, masks: Masks, session: Session, exclude: int, f: Field) {
    exists g <- grid :: GridHit(grid, masks, session, exclude, g, f)
  }

  predicate BusyByMask(grid: Grid, masks: Masks, session: Session, exclude: int, f: Field) {
    exists key <- masks :: MaskHit(grid, masks, session, exclude, key, f)
  }

  /** Why the regular grid is in the way, if it is. */
  function GridFields(grid: Grid, masks: Masks, session: Session, exclude: int): set<Field> {
    set f: Field | f in {NewRoom, NewTeacher} && BusyOnGrid(grid, masks, session, exclude, f)
  }

  /** Why another reschedule is in the way, if one is. */
  function MaskFields(grid: Grid, masks: Masks, session: Session, exclude: int): set<Field> {
    set f: Field | f in {NewRoom, NewTeacher} && BusyByMask(grid, masks, session, exclude, f)
  }

  predicate GridHit(grid: Grid, masks: Masks, session: Session, exclude: int, g: int, f: Field) {
    GridOccupant(grid, masks, session, exclude, g) && Hits(session, grid[g].room, grid[g].teacher, f)
  }

  predicate MaskHit(grid: Grid, masks: Masks, session: Session, exclude: int, key: MaskKey, f: Field) {
    && MaskOccupant(grid, masks, session, exclude, key)
    && var landing := Effective(grid[key.group], masks[key], key.date);
       Hits(session, landing.room, landing.teacher, f)
  }

  /** The whole of one mask creation, run alone. */
  function CreateMask(grid: Grid, masks: Masks, today: int, g: int, date: int, m: Mask): Result<Masks, MaskError> {
    if date < today then Failure(PastDate)
    else if g !in grid then Failure(UnknownSchedule)
    else
      match ValidateTarget(grid[g], date)
      case Some(e) => Failure(e)
      case None =>
        match CleanMask(m)
        case Some(e) => Failure(e)
        case None =>
          if MaskKey(g, date) in masks then Failure(AlreadyMasked)
          else if m.kind == Reschedule then
            var landing := Effective(grid[g], m, date);
            var fields := GridFields(grid, masks, landing, g) + MaskFields(grid, masks, landing, g);
            if fields != {} then Failure(Busy(fields)) else Success(masks[MaskKey(g, date) := m])
          else Success(masks[MaskKey(g, date) := m])
  }

  // ---- What the check guarantees ----

  /** Every stored mask sits on its group's weekday and is well formed. */
  ghost predicate MasksOk(grid: Grid, masks: Masks) {
    forall key <- masks ::
      key.group in grid && ValidateTarget(grid[key.group], key.date).None? && CleanMask(masks[key]).None?
  }

  lemma EffectiveIsShown(s: Schedule, m: Mask, date: int)
    ensures Effective(s, m, date) == ApplyReschedule(s, m, WeekStart(date))
  {
  }

  /** The seven days searched miss no session that lands on the date in question. */
  lemma WindowIsComplete(s: Schedule, m: Mask, target: int, date: int)
    requires CleanMask(m).None? && 0 <= s.day <= 6 && Effective(s, m, target).date == date
    ensures WeekStart(target) == WeekStart(date)
    ensures WeekStart(date) <= target <= WeekStart(date) + 6
  {
    WeekStartOfDay(WeekStart(target), OrElse(m.newDay, s.day));
  }

  /** No occupant of the regular grid shares a resource with the session. */
  ghost predicate GridFree(grid: Grid, masks: Masks, session: Session, exclude: int) {
    forall g, f :: !GridHit(grid, masks, session, exclude, g, f)
  }

  /** No other landing shares a resource with the session. */
  ghost predicate LandingsFree(grid: Grid, masks: Masks, session: Session, exclude: int) {
    forall key, f :: !MaskHit(grid, masks, session, exclude, key, f)
  }

  lemma NoFieldsMeansFree(grid: Grid, masks: Masks, session: Session, exclude: int)
    ensures GridFields(grid, masks, session, exclude) == {} <==> GridFree(grid, masks, session, exclude)
    ensures MaskFields(grid, masks, session, exclude) == {} <==> LandingsFree(grid, masks, session, exclude)
  {
    if GridFields(grid, masks, session, exclude) == {} {
      forall g, f ensures !GridHit(grid, masks, session, exclude, g, f) {
        assert f !in GridFields(grid, masks, session, exclude);
      }
    }
    if MaskFields(grid, masks, session, exclude) == {} {
      forall key, f ensures !MaskHit(grid, masks, session, exclude, key, f) {
        assert f !in MaskFields(grid, masks, session, exclude);
      }
    }
  }

  /** The shown session of a group in a week depends on its one mask of that week. */
  lemma ShownSession(grid: Grid, masks: Masks, g: int, monday: int)
    requires GridOk(grid) && MasksOk(grid, masks) && g in grid && Weekday(monday) == 0
    ensures var slot := ProjectSchedule(grid, masks, g, monday);
            var key := MaskKey(g, monday + grid[g].day);
            && WeekStart(key.date) == monday
            && (key !in masks ==> slot.session == Regular(grid[g], monday))
            && (key in masks && masks[key].kind == Reschedule ==> slot.session == Effective(grid[g], masks[key], key.date))
            && 0 <= slot.session.day <= 6 && slot.session.date == monday + slot.session.day
            && WeekStart(slot.session.date) == monday
  {
    var slot := ProjectSchedule(grid, masks, g, monday);
    WeekStartOfDay(monday, grid[g].day);
    var key := MaskKey(g, monday + grid[g].day);
    if key in masks && masks[key].kind == Reschedule {
      EffectiveIsShown(grid[g], masks[key], key.date);
      assert CleanMask(masks[key]).None?;
    }
    WeekStartOfDay(monday, slot.session.day);
  }

  /** A free landing clashes with nobody else's shown session. */
  lemma FreeLandingIsClear(grid: Grid, masks: Masks, g: int, date: int, m: Mask, h: int)
    requires GridOk(grid) && MasksOk(grid, masks) && g in grid && h in grid && g != h && Visible(grid[h])
    requires ValidateTarget(grid[g], date).None? && CleanMask(m).None? && m.kind == Reschedule
    requires GridFree(grid, masks, Effective(grid[g], m, date), g)
    requires LandingsFree(grid, masks, Effective(grid[g], m, date), g)
    requires !ProjectSchedule(grid, masks, h, WeekStart(date)).cancelled
    ensures !Clash(Effective(grid[g], m, date), ProjectSchedule(grid, masks, h, WeekStart(date)).session)
  {
    var monday := WeekStart(date);
    var landing := Effective(grid[g], m, date);
    ShownSession(grid, masks, h, monday);
    WeekStartOfDay(monday, landing.day);
    var other := ProjectSchedule(grid, masks, h, monday).session;
    if landing.date == other.date && Overlap(landing.start, landing.end, other.start, other.end) {
      var key := MaskKey(h, monday + grid[h].day);
      if key in masks {
        assert !MaskHit(grid, masks, landing, g, key, NewRoom) && !MaskHit(grid, masks, landing, g, key, NewTeacher);
      } else {
        assert !GridHit(grid, masks, landing, g, h, NewRoom) && !GridHit(grid, masks, landing, g, h, NewTeacher);
      }
    }
  }

  /** Storing a mask whose landing is free, or a cancellation, keeps the calendar free of clashes. */
  lemma StoringKeepsNoClashes(grid: Grid, masks: Masks, g: int, date: int, m: Mask)
    requires GridOk(grid) && MasksOk(grid, masks) && NoClashes(grid, masks)
    requires g in grid && ValidateTarget(grid[g], date).None? && CleanMask(m).None?
    requires m.kind == Reschedule ==>
               GridFree(grid, masks, Effective(grid[g], m, date), g) && LandingsFree(grid, masks, Effective(grid[g], m, date), g)
    ensures MasksOk(grid, masks[MaskKey(g, date) := m]) && NoClashes(grid, masks[MaskKey(g, date) := m])
  {
    var after := masks[MaskKey(g, date) := m];
    forall monday, a, b |
      Weekday(monday) == 0 && a in grid && b in grid && a != b && Visible(grid[a]) && Visible(grid[b])
      && !ProjectSchedule(grid, after, a, monday).cancelled && !ProjectSchedule(grid, after, b, monday).cancelled
      ensures !Clash(ProjectSchedule(grid, after, a, monday).session, ProjectSchedule(grid, after, b, monday).session)
    {
      if a == g {
        StoringKeepsPair(grid, masks, g, date, m, b, monday);
      } else if b == g {
        StoringKeepsPair(grid, masks, g, date, m, a, monday);
      } else {
        assert ProjectSchedule(grid, after, a, monday) == ProjectSchedule(grid, masks, a, monday);
        assert ProjectSchedule(grid, after, b, monday) == ProjectSchedule(grid, masks, b, monday);
      }
    }
  }

  lemma StoringKeepsPair(grid: Grid, masks: Masks, g: int, date: int, m: Mask, h: int, monday: int)
    requires GridOk(grid) && MasksOk(grid, masks) && NoClashes(grid, masks)
    requires g in grid && ValidateTarget(grid[g], date).None? && CleanMask(m).None?
    requires m.kind == Reschedule ==>
               GridFree(grid, masks, Effective(grid[g], m, date), g) && LandingsFree(grid, masks, Effective(grid[g], m, date), g)
    requires Weekday(monday) == 0 && h in grid && h != g && Visible(grid[g]) && Visible(grid[h])
    requires var after := masks[MaskKey(g, date) := m];
             !ProjectSchedule(grid, after, g, monday).cancelled && !ProjectSchedule(grid, after, h, monday).cancelled
    ensures var after := masks[MaskKey(g, date) := m];
            && !Clash(ProjectSchedule(grid, after, g, monday).session, ProjectSchedule(grid, after, h, monday).session)
            && !Clash(ProjectSchedule(grid, after, h, monday).session, ProjectSchedule(grid, after, g, monday).session)
  {
    var after := masks[MaskKey(g, date) := m];
    assert ProjectSchedule(grid, after, h, monday) == ProjectSchedule(grid, masks, h, monday);
    if monday + grid[g].day == date {
      WeekStartOfDay(monday, grid[g].day);
      EffectiveIsShown(grid[g], m, date);
      FreeLandingIsClear(grid, masks, g, date, m, h);
    } else {
      assert ProjectSchedule(grid, after, g, monday) == ProjectSchedule(grid, masks, g, monday);
    }
  }

  lemma BareGridHasNoClashes(grid: Grid)
    requires GridOk(grid)
    ensures NoClashes(grid, map[]) && MasksOk(grid, map[])
  {
  }

  /** An accepted mask, alone, keeps the calendar free of clashes. */
  lemma CreateKeepsNoClashes(grid: Grid, masks: Masks, today: int, g: int, date: int, m: Mask)
    requires GridOk(grid) && MasksOk(grid, masks) && NoClashes(grid, masks)
    requires CreateMask(grid, masks, today, g, date, m).Success?
    ensures var after := CreateMask(grid, masks, today, g, date, m).value;
            MasksOk(grid, after) && NoClashes(grid, after) && MaskKey(g, date) !in masks && after == masks[MaskKey(g, date) := m]
  {
    NoFieldsMeansFree(grid, masks, Effective(grid[g], m, date), g);
    StoringKeepsNoClashes(grid, masks, g, date, m);
  }

  /** No clash with anything shown that week means that no group of the regular grid is in the way. */
  lemma GridHitIsClash(grid: Grid, masks: Masks, g: int, date: int, m: Mask)
    requires GridOk(grid) && MasksOk(grid, masks) && g in grid
    requires ValidateTarget(grid[g], date).None? && CleanMask(m).None? && m.kind == Reschedule
    requires forall h <- grid :: h != g && Visible(grid[h]) && !ProjectSchedule(grid, masks, h, WeekStart(date)).cancelled ==>
               !Clash(Effective(grid[g], m, date), ProjectSchedule(grid, masks, h, WeekStart(date)).session)
    ensures GridFree(grid, masks, Effective(grid[g], m, date), g)
  {
    var monday := WeekStart(date);
    var landing := Effective(grid[g], m, date);
    WeekStartOfDay(monday, landing.day);
    forall h, f | GridOccupant(grid, masks, landing, g, h) ensures !Hits(landing, grid[h].room, grid[h].teacher, f) {
      ShownSession(grid, masks, h, monday);
    }
  }

  /** Nor is any other reschedule. */
  lemma LandingHitIsClash(grid: Grid, masks: Masks, g: int, date: int, m: Mask)
    requires GridOk(grid) && MasksOk(grid, masks) && g in grid
    requires ValidateTarget(grid[g], date).None? && CleanMask(m).None? && m.kind == Reschedule
    requires forall h <- grid :: h != g && Visible(grid[h]) && !ProjectSchedule(grid, masks, h, WeekStart(date)).cancelled ==>
               !Clash(Effective(grid[g], m, date), ProjectSchedule(grid, masks, h, WeekStart(date)).session)
    ensures LandingsFree(grid, masks, Effective(grid[g], m, date), g)
  {
    var monday := WeekStart(date);
    var landing := Effective(grid[g], m, date);
    WeekStartOfDay(monday, landing.day);
    forall key, f | MaskOccupant(grid, masks, landing, g, key)
      ensures !Hits(landing, Effective(grid[key.group], masks[key], key.date).room, Effective(grid[key.group], masks[key], key.date).teacher, f)
    {
      ShownSession(grid, masks, key.group, monday);
      assert ValidateTarget(grid[key.group], key.date).None?;
      assert key == MaskKey(key.group, monday + grid[key.group].day);
    }
  }

  /** A well-formed reschedule is accepted exactly when its landing clashes with nothing else shown that week. */
  lemma AcceptedIffClear(grid: Grid, masks: Masks, today: int, g: int, date: int, m: Mask)
    requires GridOk(grid) && MasksOk(grid, masks)
    requires date >= today && g in grid && ValidateTarget(grid[g], date).None?
    requires CleanMask(m).None? && m.kind == Reschedule && MaskKey(g, date) !in masks
    ensures CreateMask(grid, masks, today, g, date, m).Success? <==>
              forall h <- grid :: h != g && Visible(grid[h]) && !ProjectSchedule(grid, masks, h, WeekStart(date)).cancelled ==>
                !Clash(Effective(grid[g], m, date), ProjectSchedule(grid, masks, h, WeekStart(date)).session)
  {
    NoFieldsMeansFree(grid, masks, Effective(grid[g], m, date), g);
    if CreateMask(grid, masks, today, g, date, m).Success? {
      forall h | h in grid && h != g && Visible(grid[h]) && !ProjectSchedule(grid, masks, h, WeekStart(date)).cancelled
        ensures !Clash(Effective(grid[g], m, date), ProjectSchedule(grid, masks, h, WeekStart(date)).session)
      {
        FreeLandingIsClear(grid, masks, g, date, m, h);
      }
    } else if forall h <- grid :: h != g && Visible(grid[h]) && !ProjectSchedule(grid, masks, h, WeekStart(date)).cancelled ==>
                !Clash(Effective(grid[g], m, date), ProjectSchedule(grid, masks, h, WeekStart(date)).session) {
      GridHitIsClash(grid, masks, g, date, m);
      LandingHitIsClash(grid, masks, g, date, m);
    }
  }
}
