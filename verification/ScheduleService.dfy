/** The schedule services: creating a mask in place, and building the grid of a week. */
module ScheduleService {
  import opened Wrappers
  import opened Calendar
  import opened ScheduleModel
  import A = ScheduleAnswers

  // ---- Collision checks ----

  type Resources = (Option<int>, Option<int>)

  ghost predicate SomeoneHits(session: Session, occupants: set<Resources>, f: Field) {
    exists o <- occupants :: Hits(session, o.0, o.1, f)
  }

  /** Which form fields to blame, given the rooms and teachers taken at that time. */
  method CollidedFields(session: Session, occupants: set<Resources>) returns (fields: set<Field>)
    ensures forall f :: f in fields <==> SomeoneHits(session, occupants, f)
  {
    fields := {};
    var todo := occupants;
    while todo != {}
      invariant todo <= occupants
      invariant forall f :: f in fields <==> SomeoneHits(session, occupants - todo, f)
      decreases todo
    {
      var o :| o in todo;
      ghost var seen := occupants - todo;
      assert occupants - (todo - {o}) == seen + {o};
      if session.room.Some? && o.0 == session.room {
        fields := fields + {NewRoom};
      }
      if session.teacher.Some? && o.1 == session.teacher {
        fields := fields + {NewTeacher};
      }
      forall f ensures SomeoneHits(session, seen + {o}, f) <==> SomeoneHits(session, seen, f) || Hits(session, o.0, o.1, f) {
        OneMore(session, seen, o, f);
      }
      todo := todo - {o};
    }
    assert occupants - todo == occupants;
  }

  lemma OneMore(session: Session, seen: set<Resources>, o: Resources, f: Field)
    ensures SomeoneHits(session, seen + {o}, f) <==> SomeoneHits(session, seen, f) || Hits(session, o.0, o.1, f)
  {
    if Hits(session, o.0, o.1, f) {
      assert o in seen + {o};
    }
    if SomeoneHits(session, seen, f) {
      var x :| x in seen && Hits(session, x.0, x.1, f);
      assert x in seen + {o};
    }
  }

  method GridCollisionFields(grid: Grid, masks: Masks, session: Session, exclude: int) returns (fields: set<Field>)
    ensures fields == GridFields(grid, masks, session, exclude)
  {
    var occupants: set<Resources> := set g <- grid | GridOccupant(grid, masks, session, exclude, g) :: (grid[g].room, grid[g].teacher);
    fields := CollidedFields(session, occupants);
    forall f ensures SomeoneHits(session, occupants, f) <==> BusyOnGrid(grid, masks, session, exclude, f) {
      if SomeoneHits(session, occupants, f) {
        var o :| o in occupants && Hits(session, o.0, o.1, f);
        var g :| g in grid && GridOccupant(grid, masks, session, exclude, g) && o == (grid[g].room, grid[g].teacher);
        assert GridHit(grid, masks, session, exclude, g, f);
      }
      if BusyOnGrid(grid, masks, session, exclude, f) {
        var g :| g in grid && GridHit(grid, masks, session, exclude, g, f);
        assert (grid[g].room, grid[g].teacher) in occupants;
      }
    }
    forall f ensures f in fields <==> f in GridFields(grid, masks, session, exclude) {
      assert f == NewRoom || f == NewTeacher;
    }
  }

  function LandingResources(grid: Grid, masks: Masks, key: MaskKey): Resources
    requires key in masks && key.group in grid
  {
    var landing := Effective(grid[key.group], masks[key], key.date);
    (landing.room, landing.teacher)
  }

  method MaskCollisionFields(grid: Grid, masks: Masks, session: Session, exclude: int) returns (fields: set<Field>)
    ensures fields == MaskFields(grid, masks, session, exclude)
  {
    var monday := WeekStart(session.date);
    var others := set key <- masks | masks[key].kind == Reschedule && monday <= key.date <= monday + 6
                                     && key.group in grid && Visible(grid[key.group]) && key.group != exclude;
    var landings: set<Resources> := {};
    var todo := others;
    while todo != {}
      invariant todo <= others
      invariant forall o :: o in landings <==>
                  exists key <- others - todo :: MaskOccupant(grid, masks, session, exclude, key) && o == LandingResources(grid, masks, key)
      decreases todo
    {
      var key :| key in todo;
      var landing := Effective(grid[key.group], masks[key], key.date);
      assert others - (todo - {key}) == (others - todo) + {key};
      if landing.date == session.date && landing.start < session.end && session.start < landing.end {
        assert MaskOccupant(grid, masks, session, exclude, key);
        landings := landings + {(landing.room, landing.teacher)};
      }
      todo := todo - {key};
    }
    fields := CollidedFields(session, landings);
    assert others - todo == others;
    forall f ensures SomeoneHits(session, landings, f) <==> BusyByMask(grid, masks, session, exclude, f) {
      if SomeoneHits(session, landings, f) {
        var o :| o in landings && Hits(session, o.0, o.1, f);
        var key :| key in others && MaskOccupant(grid, masks, session, exclude, key) && o == LandingResources(grid, masks, key);
        assert MaskHit(grid, masks, session, exclude, key, f);
      }
      if BusyByMask(grid, masks, session, exclude, f) {
        var key :| key in masks && MaskHit(grid, masks, session, exclude, key, f);
        assert key in others && LandingResources(grid, masks, key) in landings;
      }
    }
    forall f ensures f in fields <==> f in MaskFields(grid, masks, session, exclude) {
      assert f == NewRoom || f == NewTeacher;
    }
  }

  // ---- Mask creation ----

  class MaskStore {
    const grid: Grid
    var masks: Masks

    ghost predicate Valid()
      reads this
    {
      GridOk(grid) && MasksOk(grid, masks) && NoClashes(grid, masks)
    }

    constructor (grid: Grid)
      requires GridOk(grid)
      ensures Valid() && this.grid == grid && masks == map[]
    {
      this.grid := grid;
      masks := map[];
      new;
      BareGridHasNoClashes(grid);
    }

    method CreateScheduleMask(today: int, g: int, date: int, m: Mask) returns (error: Option<MaskError>)
      requires Valid()
      modifies this
      ensures Valid()
      ensures match CreateMask(grid, old(masks), today, g, date, m)
              case Success(after) => error.None? && masks == after
              case Failure(e) => error == Some(e) && masks == old(masks)
      ensures A.Answers(grid, old(masks), today, g, date, m, masks, error)
    {
      A.CreationAnswers(grid, masks, today, g, date, m);
      if date < today {
        return Some(PastDate);
      }
      if g !in grid {
        return Some(UnknownSchedule);
      }
      error := ValidateTarget(grid[g], date);
      if error.Some? {
        return;
      }
      error := CleanMask(m);
      if error.Some? {
        return;
      }
      if MaskKey(g, date) in masks {
        return Some(AlreadyMasked);
      }
      if m.kind == Reschedule {
        var landing := Effective(grid[g], m, date);
        var onGrid := GridCollisionFields(grid, masks, landing, g);
        var byMask := MaskCollisionFields(grid, masks, landing, g);
        if onGrid + byMask != {} {
          return Some(Busy(onGrid + byMask));
        }
      }
      CreateKeepsNoClashes(grid, masks, today, g, date, m);
      masks := masks[MaskKey(g, date) := m];
    }
  }

  // ---- The grid of a week ----

  predicate Earlier(a: WeekSlot, b: WeekSlot) {
    || a.session.day < b.session.day
    || (a.session.day == b.session.day && a.session.start < b.session.start)
    || (a.session.day == b.session.day && a.session.start == b.session.start && a.group < b.group)
  }

  ghost predicate InOrder(slots: seq<WeekSlot>) {
    forall i, j :: 0 <= i < j < |slots| ==> Earlier(slots[i], slots[j])
  }

  method Place(slots: seq<WeekSlot>, x: WeekSlot) returns (placed: seq<WeekSlot>)
    requires InOrder(slots) && forall s <- slots :: s.group != x.group
    ensures InOrder(placed) && multiset(placed) == multiset(slots) + multiset{x}
  {
    var i := 0;
    while i < |slots| && Earlier(slots[i], x)
      invariant 0 <= i <= |slots|
      invariant forall k :: 0 <= k < i ==> Earlier(slots[k], x)
    {
      i := i + 1;
    }
    placed := slots[..i] + [x] + slots[i..];
    assert slots == slots[..i] + slots[i..];
    if i < |slots| {
      forall k | i <= k < |slots| ensures Earlier(x, slots[k]) {
        assert k == i || Earlier(slots[i], slots[k]);
        assert slots[i].group != x.group;
      }
    }
  }

  /** Each visible group once, as projected for the week, in display order. */
  ghost predicate IsWeekGrid(grid: Grid, masks: Masks, monday: int, slots: seq<WeekSlot>) {
    && InOrder(slots)
    && (forall i :: 0 <= i < |slots| ==>
          slots[i].group in grid && Visible(grid[slots[i].group])
          && slots[i] == ProjectSchedule(grid, masks, slots[i].group, monday))
    && (forall i, j :: 0 <= i < j < |slots| ==> slots[i].group != slots[j].group)
    && (forall g <- grid :: Visible(grid[g]) ==> ProjectSchedule(grid, masks, g, monday) in slots)
  }

  method BuildWeekGrid(grid: Grid, masks: Masks, day: int) returns (slots: seq<WeekSlot>)
    ensures IsWeekGrid(grid, masks, WeekStart(day), slots)
    ensures WeekIs(grid, masks, WeekStart(day), day, slots)
  {
    slots := ProjectWeek(grid, masks, day);
    WeekGridIs(grid, masks, day, slots);
  }

  /** Each visible group has one line, which shows its session of that week; lines are sorted by day, start and group. */
  ghost predicate WeekIs(grid: Grid, masks: Masks, monday: int, day: int, slots: seq<WeekSlot>) {
    && A.MondayOf(monday, day)
    && (forall i :: 0 <= i < |slots| ==> A.SlotIs(grid, masks, monday, slots[i]))
    && (forall g <- grid :: grid[g].active && grid[g].activityActive ==> exists i :: 0 <= i < |slots| && slots[i].group == g)
    && (forall i, j :: 0 <= i < j < |slots| ==>
          && slots[i].group != slots[j].group
          && (slots[i].session.day < slots[j].session.day
              || (slots[i].session.day == slots[j].session.day
                  && (slots[i].session.start < slots[j].session.start
                      || (slots[i].session.start == slots[j].session.start && slots[i].group < slots[j].group)))))
  }

  lemma WeekGridIs(grid: Grid, masks: Masks, day: int, slots: seq<WeekSlot>)
    requires IsWeekGrid(grid, masks, WeekStart(day), slots)
    ensures WeekIs(grid, masks, WeekStart(day), day, slots)
  {
    var monday := WeekStart(day);
    A.WeekStartIsMonday(day);
    forall i | 0 <= i < |slots| ensures A.SlotIs(grid, masks, monday, slots[i]) {
      A.ShownIs(grid, masks, slots[i].group, monday);
    }
    forall g | g in grid && grid[g].active && grid[g].activityActive ensures exists i :: 0 <= i < |slots| && slots[i].group == g {
      A.ShownIs(grid, masks, g, monday);
      assert ProjectSchedule(grid, masks, g, monday) in slots;
    }
    forall i, j | 0 <= i < j < |slots| ensures Earlier(slots[i], slots[j]) {
    }
  }

  method ProjectWeek(grid: Grid, masks: Masks, day: int) returns (slots: seq<WeekSlot>)
    ensures IsWeekGrid(grid, masks, WeekStart(day), slots)
  {
    var monday := WeekStart(day);
    var all := set g <- grid | Visible(grid[g]) :: ProjectSchedule(grid, masks, g, monday);
    slots := [];
    var todo := all;
    while todo != {}
      invariant todo <= all
      invariant InOrder(slots)
      invariant forall x :: x in slots <==> x in all - todo
      invariant forall i, j :: 0 <= i < j < |slots| ==> slots[i].group != slots[j].group
      decreases todo
    {
      var x :| x in todo;
      ghost var before := slots;
      forall s | s in slots ensures s.group != x.group {
        assert s in all && x in all && s != x;
      }
      slots := Place(slots, x);
      todo := todo - {x};
      PlacedOnce(before, slots, x);
    }
    forall g | g in grid && Visible(grid[g]) ensures ProjectSchedule(grid, masks, g, monday) in slots {
      assert ProjectSchedule(grid, masks, g, monday) in all;
    }
    forall i | 0 <= i < |slots| ensures slots[i].group in grid && Visible(grid[slots[i].group])
                                        && slots[i] == ProjectSchedule(grid, masks, slots[i].group, monday) {
      assert slots[i] in slots;
    }
  }

  lemma PlacedOnce(before: seq<WeekSlot>, after: seq<WeekSlot>, x: WeekSlot)
    requires InOrder(after) && multiset(after) == multiset(before) + multiset{x}
    requires forall s <- before :: s.group != x.group
    requires forall i, j :: 0 <= i < j < |before| ==> before[i].group != before[j].group
    ensures forall y :: y in after <==> y in before || y == x
    ensures forall i, j :: 0 <= i < j < |after| ==> after[i].group != after[j].group
  {
    forall y ensures y in after <==> y in before || y == x {
      assert y in after <==> y in multiset(after);
      assert y in before <==> y in multiset(before);
    }
    forall i, j | 0 <= i < j < |after| ensures after[i].group != after[j].group {
      assert Earlier(after[i], after[j]);
      assert after[i] in after && after[j] in after;
      if after[i] != x && after[j] != x {
        var a :| 0 <= a < |before| && before[a] == after[i];
        var b :| 0 <= b < |before| && before[b] == after[j];
        assert a != b;
        assert a < b || b < a;
      }
    }
  }

  /** The grid a client sees has no clash. */
  lemma ShownWeekHasNoClash(grid: Grid, masks: Masks, monday: int, slots: seq<WeekSlot>, i: nat, j: nat)
    requires Weekday(monday) == 0 && NoClashes(grid, masks) && IsWeekGrid(grid, masks, monday, slots)
    requires i < j < |slots| && !slots[i].cancelled && !slots[j].cancelled
    ensures !Clash(slots[i].session, slots[j].session)
  {
    assert slots[i].group != slots[j].group;
    assert slots[i] == ProjectSchedule(grid, masks, slots[i].group, monday);
    assert slots[j] == ProjectSchedule(grid, masks, slots[j].group, monday);
  }
}
