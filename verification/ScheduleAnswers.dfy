/**
 Where rescheduled lessons take place, what a week shows and which masks are
 refused, field by field: the reference for the projection and the collision
 checks.
 */
module ScheduleAnswers {
  import opened Wrappers
  import opened Calendar
  import opened ScheduleModel

  /** Day 1 is a Monday. */
  predicate MondayOf(monday: int, day: int) {
    (monday - 1) % 7 == 0 && monday <= day < monday + 7
  }

  /** Each field of the mask where it is given, and the group's own field where it is empty. */
  predicate LandsIn(s: Schedule, m: Mask, monday: int, x: Session) {
    && (m.newDay.Some? ==> x.day == m.newDay.value) && (m.newDay.None? ==> x.day == s.day)
    && (m.newStart.Some? ==> x.start == m.newStart.value) && (m.newStart.None? ==> x.start == s.start)
    && (m.newEnd.Some? ==> x.end == m.newEnd.value) && (m.newEnd.None? ==> x.end == s.end)
    && (m.newRoom.Some? ==> x.room == m.newRoom) && (m.newRoom.None? ==> x.room == s.room)
    && (m.newTeacher.Some? ==> x.teacher == m.newTeacher) && (m.newTeacher.None? ==> x.teacher == s.teacher)
    && x.date == monday + x.day
  }

  function MaskOf(grid: Grid, masks: Masks, g: int, monday: int): Option<Mask>
    requires g in grid
  {
    var key := MaskKey(g, monday + grid[g].day);
    if key in masks then Some(masks[key]) else None
  }

  /** Group g meets as x in the week that starts on `monday`. */
  predicate Meets(grid: Grid, masks: Masks, g: int, monday: int, x: Session) {
    && g in grid && grid[g].active && grid[g].activityActive
    && match MaskOf(grid, masks, g, monday)
       case None => x == Session(monday + grid[g].day, grid[g].day, grid[g].start, grid[g].end, grid[g].room, grid[g].teacher)
       case Some(m) => m.kind == Reschedule && LandsIn(grid[g], m, monday, x)
  }

  /** The line of a group in the grid of a week. */
  predicate SlotIs(grid: Grid, masks: Masks, monday: int, slot: WeekSlot) {
    && slot.group in grid && grid[slot.group].active && grid[slot.group].activityActive
    && var m := MaskOf(grid, masks, slot.group, monday);
       && slot.cancelled == (m.Some? && m.value.kind == Cancellation)
       && slot.rescheduled == (m.Some? && m.value.kind == Reschedule)
       && (!slot.cancelled ==> Meets(grid, masks, slot.group, monday, slot.session))
       && (slot.cancelled ==> Meets(grid, map[], slot.group, monday, slot.session))
  }

  lemma ShownIs(grid: Grid, masks: Masks, g: int, monday: int)
    requires g in grid && grid[g].active && grid[g].activityActive
    ensures SlotIs(grid, masks, monday, ProjectSchedule(grid, masks, g, monday))
    ensures ProjectSchedule(grid, masks, g, monday).group == g
  {
  }

  /** The mask of a week and the session it leads to are unique. */
  lemma MeetsOnce(grid: Grid, masks: Masks, g: int, monday: int, x: Session)
    requires Meets(grid, masks, g, monday, x)
    ensures !ProjectSchedule(grid, masks, g, monday).cancelled && x == ProjectSchedule(grid, masks, g, monday).session
  {
  }

  lemma MondayIsWeekStart(monday: int, day: int)
    requires MondayOf(monday, day)
    ensures monday == WeekStart(day) && Weekday(monday) == 0
  {
    WeekStartOfDay(monday, day - monday);
  }

  lemma WeekStartIsMonday(day: int)
    ensures MondayOf(WeekStart(day), day)
  {
  }

  lemma LandingIs(s: Schedule, m: Mask, monday: int, target: int, x: Session)
    requires MondayOf(monday, target)
    ensures LandsIn(s, m, monday, x) <==> x == Effective(s, m, target)
  {
    MondayIsWeekStart(monday, target);
  }

  // ---- What stands in the way of a landing ----

  predicate Blocks(x: Session, y: Session, f: Field) {
    && x.date == y.date && x.start < y.end && y.start < x.end
    && match f
       case NewRoom => x.room.Some? && x.room == y.room
       case NewTeacher => x.teacher.Some? && x.teacher == y.teacher
  }

  /** Another group meets in that week at an overlapping time, in the same room or with the same teacher. */
  ghost predicate Taken(grid: Grid, masks: Masks, g: int, monday: int, x: Session, f: Field) {
    exists h: int, y: Session :: h != g && Meets(grid, masks, h, monday, y) && Blocks(x, y, f)
  }

  /** The group, the date and the fields of the mask are in order. */
  predicate InOrder(grid: Grid, masks: Masks, today: int, g: int, date: int, m: Mask) {
    && today <= date && g in grid && grid[g].active && (date - 1) % 7 == grid[g].day
    && (m.newDay.Some? ==> 0 <= m.newDay.value <= 6)
    && (m.kind == Cancellation ==> m.newDay.None? && m.newStart.None? && m.newEnd.None? && m.newRoom.None? && m.newTeacher.None?)
    && (m.kind == Reschedule ==> m.newStart.Some? && m.newEnd.Some? && m.newStart.value < m.newEnd.value)
    && MaskKey(g, date) !in masks
  }

  /** What an error other than a collision says is true. */
  predicate Justified(grid: Grid, masks: Masks, today: int, g: int, date: int, m: Mask, e: MaskError) {
    match e
    case PastDate => date < today
    case UnknownSchedule => g !in grid
    case InactiveSchedule => g in grid && !grid[g].active
    case WrongWeekday => g in grid && (date - 1) % 7 != grid[g].day
    case DayOutOfRange => m.newDay.Some? && !(0 <= m.newDay.value <= 6)
    case CancellationOverrides =>
      m.kind == Cancellation && (m.newDay.Some? || m.newStart.Some? || m.newEnd.Some? || m.newRoom.Some? || m.newTeacher.Some?)
    case MissingTimes => m.kind == Reschedule && (m.newStart.None? || m.newEnd.None?)
    case EndBeforeStart => m.kind == Reschedule && m.newStart.Some? && m.newEnd.Some? && m.newEnd.value <= m.newStart.value
    case AlreadyMasked => MaskKey(g, date) in masks
    case Busy(_) => false
  }

  /**
   A mask is refused for what is wrong with it, or, a reschedule, for exactly those
   of room and teacher that another group uses where it lands; otherwise it is stored.
   */
  ghost predicate Answers(grid: Grid, masks: Masks, today: int, g: int, date: int, m: Mask, after: Masks, error: Option<MaskError>) {
    if !InOrder(grid, masks, today, g, date, m) then
      error.Some? && Justified(grid, masks, today, g, date, m, error.value) && after == masks
    else if m.kind == Cancellation then error == None && after == masks[MaskKey(g, date) := m]
    else
      forall monday, x: Session :: MondayOf(monday, date) && LandsIn(grid[g], m, monday, x) ==>
        if Taken(grid, masks, g, monday, x, NewRoom) || Taken(grid, masks, g, monday, x, NewTeacher) then
          && error.Some? && error.value.Busy? && after == masks
          && forall f :: f in error.value.fields <==> Taken(grid, masks, g, monday, x, f)
        else error == None && after == masks[MaskKey(g, date) := m]
  }

  lemma GridHitBlocks(grid: Grid, masks: Masks, g: int, monday: int, x: Session, h: int, f: Field)
    requires x.date == monday + x.day && GridHit(grid, masks, x, g, h, f)
    ensures Taken(grid, masks, g, monday, x, f)
  {
    var y := Regular(grid[h], monday);
    assert Meets(grid, masks, h, monday, y) && Blocks(x, y, f);
  }

  lemma MaskHitBlocks(grid: Grid, masks: Masks, g: int, monday: int, x: Session, key: MaskKey, f: Field)
    requires GridOk(grid) && MasksOk(grid, masks)
    requires (monday - 1) % 7 == 0 && 0 <= x.day <= 6 && x.date == monday + x.day && MaskHit(grid, masks, x, g, key, f)
    ensures Taken(grid, masks, g, monday, x, f)
  {
    MaskOfItsWeek(grid, masks, monday, x, key);
    var h := key.group;
    var y := Effective(grid[h], masks[key], key.date);
    LandingIs(grid[h], masks[key], monday, key.date, y);
    assert Meets(grid, masks, h, monday, y) && Blocks(x, y, f);
  }

  lemma MaskOfItsWeek(grid: Grid, masks: Masks, monday: int, x: Session, key: MaskKey)
    requires MasksOk(grid, masks) && key in masks
    requires (monday - 1) % 7 == 0 && 0 <= x.day <= 6 && x.date == monday + x.day
    requires WeekStart(x.date) <= key.date <= WeekStart(x.date) + 6
    ensures MondayOf(monday, key.date) && key.group in grid && key == MaskKey(key.group, monday + grid[key.group].day)
  {
    WeekStartOfDay(monday, x.day);
    assert ValidateTarget(grid[key.group], key.date).None?;
    SameWeekday(monday, key.date, grid[key.group].day);
  }

  lemma SameWeekday(monday: int, date: int, day: int)
    requires MondayOf(monday, date) && Weekday(date) == day
    ensures date == monday + day
  {
    WeekdayInWeek(monday, date - monday);
  }

  lemma WeekdayInWeek(monday: int, k: int)
    requires (monday - 1) % 7 == 0 && 0 <= k < 7
    ensures Weekday(monday + k) == k
  {
  }

  lemma BlockerHits(grid: Grid, masks: Masks, g: int, monday: int, x: Session, h: int, y: Session, f: Field)
    requires GridOk(grid) && MasksOk(grid, masks)
    requires (monday - 1) % 7 == 0 && 0 <= x.day <= 6 && x.date == monday + x.day
    requires h != g && Meets(grid, masks, h, monday, y) && Blocks(x, y, f)
    ensures f in GridFields(grid, masks, x, g) + MaskFields(grid, masks, x, g)
  {
    var key := MaskKey(h, monday + grid[h].day);
    WeekStartOfDay(monday, x.day);
    if key in masks {
      assert MondayOf(monday, key.date);
      LandingIs(grid[h], masks[key], monday, key.date, y);
      assert MaskHit(grid, masks, x, g, key, f);
    } else {
      assert x.day == y.day;
      assert GridHit(grid, masks, x, g, h, f);
    }
  }

  /** The collision fields of a landing are exactly what other groups take there. */
  lemma FieldsAreTaken(grid: Grid, masks: Masks, g: int, monday: int, x: Session, f: Field)
    requires GridOk(grid) && MasksOk(grid, masks)
    requires (monday - 1) % 7 == 0 && 0 <= x.day <= 6 && x.date == monday + x.day
    ensures f in GridFields(grid, masks, x, g) + MaskFields(grid, masks, x, g) <==> Taken(grid, masks, g, monday, x, f)
  {
    if f in GridFields(grid, masks, x, g) {
      var h :| h in grid && GridHit(grid, masks, x, g, h, f);
      GridHitBlocks(grid, masks, g, monday, x, h, f);
    }
    if f in MaskFields(grid, masks, x, g) {
      var key :| key in masks && MaskHit(grid, masks, x, g, key, f);
      MaskHitBlocks(grid, masks, g, monday, x, key, f);
    }
    if Taken(grid, masks, g, monday, x, f) {
      var h: int, y: Session :| h != g && Meets(grid, masks, h, monday, y) && Blocks(x, y, f);
      BlockerHits(grid, masks, g, monday, x, h, y, f);
    }
  }

  lemma InOrderIs(grid: Grid, masks: Masks, today: int, g: int, date: int, m: Mask)
    ensures InOrder(grid, masks, today, g, date, m) <==>
              && today <= date && g in grid && ValidateTarget(grid[g], date).None? && CleanMask(m).None? && MaskKey(g, date) !in masks
  {
    WeekdayIs(date);
  }

  lemma WeekdayIs(date: int)
    ensures Weekday(date) == (date - 1) % 7
  {
  }

  function MasksAfter(masks: Masks, r: Result<Masks, MaskError>): Masks {
    if r.Success? then r.value else masks
  }

  function ErrorOf(r: Result<Masks, MaskError>): Option<MaskError> {
    if r.Success? then None else Some(r.error)
  }

  lemma CreationAnswers(grid: Grid, masks: Masks, today: int, g: int, date: int, m: Mask)
    requires GridOk(grid) && MasksOk(grid, masks)
    ensures var r := CreateMask(grid, masks, today, g, date, m);
            Answers(grid, masks, today, g, date, m, MasksAfter(masks, r), ErrorOf(r))
  {
    InOrderIs(grid, masks, today, g, date, m);
    if !InOrder(grid, masks, today, g, date, m) {
      RefusalIsJustified(grid, masks, today, g, date, m);
    } else if m.kind == Reschedule {
      forall monday, x: Session, f | MondayOf(monday, date) && LandsIn(grid[g], m, monday, x)
        ensures x == Effective(grid[g], m, date)
        ensures f in GridFields(grid, masks, x, g) + MaskFields(grid, masks, x, g) <==> Taken(grid, masks, g, monday, x, f)
      {
        LandingIs(grid[g], m, monday, date, x);
        FieldsAreTaken(grid, masks, g, monday, x, f);
      }
    }
  }

  lemma RefusalIsJustified(grid: Grid, masks: Masks, today: int, g: int, date: int, m: Mask)
    requires !InOrder(grid, masks, today, g, date, m)
    ensures var r := CreateMask(grid, masks, today, g, date, m);
            r.Failure? && Justified(grid, masks, today, g, date, m, r.error)
  {
    WeekdayIs(date);
  }

  // ---- A calendar free of clashes ----

  /** In no week do two groups stand in each other's way. */
  ghost predicate NobodyBlocked(grid: Grid, masks: Masks) {
    forall monday, g, h, x: Session, y: Session, f ::
      (monday - 1) % 7 == 0 && g != h && Meets(grid, masks, g, monday, x) && Meets(grid, masks, h, monday, y) ==> !Blocks(x, y, f)
  }

  lemma NoClashesMeansNobodyBlocked(grid: Grid, masks: Masks)
    requires NoClashes(grid, masks)
    ensures NobodyBlocked(grid, masks)
  {
    forall monday, g, h, x: Session, y: Session, f |
      (monday - 1) % 7 == 0 && g != h && Meets(grid, masks, g, monday, x) && Meets(grid, masks, h, monday, y)
      ensures !Blocks(x, y, f)
    {
      WeekdayIs(monday);
      MeetsOnce(grid, masks, g, monday, x);
      MeetsOnce(grid, masks, h, monday, y);
      assert !Clash(ProjectSchedule(grid, masks, g, monday).session, ProjectSchedule(grid, masks, h, monday).session);
    }
  }
}
