/** The event services over rows they update in place. */
module EventService {
  import opened Wrappers
  import opened Events

  class EventStore {
    var next: nat
    var events: map<nat, Event>
    var registrations: map<nat, Registration>

    constructor (published: map<nat, Event>)
      requires forall e <- published :: published[e].seatsTaken == 0 && published[e].capacity >= 1
      ensures Snapshot() == Db(0, published, map[]) && SeatsExact(Snapshot())
    {
      next, events, registrations := 0, published, map[];
    }

    function Snapshot(): Db
      reads this
    {
      Db(next, events, registrations)
    }

    method RegisterForEvent(event: nat, attendees: nat, now: Moment) returns (r: Result<nat, RegistrationError>)
      modifies this
      ensures match Register(old(Snapshot()), event, attendees, now)
              case Success(db) => r == Success(old(next)) && Snapshot() == db
              case Failure(e) => r == Failure(e) && Snapshot() == old(Snapshot())
      ensures r.Success? ==> Registered(old(Snapshot()), Snapshot(), event, attendees, now)
      ensures r.Failure? ==> RegisterRefused(old(Snapshot()), event, attendees, now, r.error) && Snapshot() == old(Snapshot())
      ensures SeatsExact(old(Snapshot())) ==> SeatsExact(Snapshot())
    {
      RegisterAnswers(Snapshot(), event, attendees, now);
      if Register(Snapshot(), event, attendees, now).Success? {
        RegisterEffect(Snapshot(), event, attendees, now);
      }
      if event !in events || !events[event].published {
        return Failure(NotPublished);
      }
      var row := events[event];
      if row.startsAt <= now {
        return Failure(Closed);
      }
      if SeatsFree(row) < attendees {
        return Failure(NotEnoughSeats(SeatsFree(row)));
      }
      if attendees < 1 {
        return Failure(NoAttendees);
      }
      registrations := registrations[next := Registration(event, attendees, if row.price == 0 then Confirmed else PendingPayment, now)];
      r := Success(next);
      next := next + 1;
      row := row.(seatsTaken := row.seatsTaken + attendees);
      events := events[event := row];
    }

    method CancelRegistration(id: nat) returns (released: bool)
      requires Linked(Snapshot())
      modifies this
      ensures Linked(Snapshot()) && Snapshot() == Cancel(old(Snapshot()), id)
      ensures released <==> id in old(registrations) && old(registrations)[id].status != Canceled
      ensures released ==> registrations == old(registrations)[id := old(registrations)[id].(status := Canceled)]
      ensures released ==>
                var r := old(registrations)[id];
                events == old(events)[r.event := old(events)[r.event].(seatsTaken := old(events)[r.event].seatsTaken - r.attendees)]
      ensures !released ==> Snapshot() == old(Snapshot())
    {
      if id !in registrations {
        return false;
      }
      var registration := registrations[id];
      var row := events[registration.event];
      if !Blocking(registrations[id].status) {
        return false;
      }
      registrations := registrations[id := registrations[id].(status := Canceled)];
      row := row.(seatsTaken := row.seatsTaken - registration.attendees);
      events := events[registration.event := row];
      released := true;
    }

    method ReleaseExpiredPendingRegistrations(now: Moment) returns (released: nat)
      requires Linked(Snapshot())
      modifies this
      ensures Snapshot() == CancelAll(old(Snapshot()), ExpiredIds(old(Snapshot()), now, old(next)))
      ensures released == |ExpiredIds(old(Snapshot()), now, old(next))|
      ensures registrations == map id <- old(registrations) ::
                if old(registrations)[id].status == PendingPayment && now - old(registrations)[id].createdAt > 30 * 60
                then old(registrations)[id].(status := Canceled) else old(registrations)[id]
    {
      SweepIsExact(Snapshot(), now);
      ghost var before := Snapshot();
      var expired := ExpiredIds(Snapshot(), now, next);
      released := 0;
      for k := 0 to |expired|
        invariant Linked(Snapshot()) && released == k
        invariant Snapshot() == CancelAll(before, expired[..k])
      {
        SweepTurn(before, now, k);
        var canceled := CancelRegistration(expired[k]);
        if canceled {
          released := released + 1;
        }
      }
      assert expired[..|expired|] == expired;
    }
  }
}
