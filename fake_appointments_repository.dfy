/**
 * The in-memory appointments repository used as a test double: a private,
 * append-only list of appointments with a lookup by date and a create
 * operation. In the TypeScript class `findByDate` and `create` are `async`
 * but await nothing, so they are modelled as ordinary methods.
 */
module FakeAppointmentsRepository {
  import opened Wrappers
  import opened Appointments

  class AppointmentsRepository {
    /** Every appointment created so far, in creation order. */
    var appointments: seq<Appointment>

    /** A new repository starts out empty. */
    constructor ()
      ensures appointments == []
    {
      appointments := [];
    }

    /**
     * Scans the stored appointments in order and returns the first whose date
     * equals `date`, or `None` when there is none. The method has no
     * `modifies` clause, so the stored list is the same afterwards.
     */
    method FindByDate(date: Date) returns (found: Option<Appointment>)
      ensures found.None? <==> forall j :: 0 <= j < |appointments| ==> appointments[j].date != date
      ensures found.Some? ==>
        exists i :: IsFirstMatch(appointments, date, i) && appointments[i] == found.value
      ensures found == FirstMatch(appointments, date)
    {
      var i := 0;
      while i < |appointments|
        invariant 0 <= i <= |appointments|
        invariant forall j :: 0 <= j < i ==> appointments[j].date != date
        invariant FirstMatch(appointments, date) == FirstMatch(appointments[i..], date)
      {
        if appointments[i].date == date {
          assert IsFirstMatch(appointments, date, i);
          return Some(appointments[i]);
        }
        assert appointments[i..][1..] == appointments[i + 1..];
        i := i + 1;
      }
      return None;
    }

    /**
     * Builds the appointment `{ id, provider_id, date }`, appends it to the
     * stored list and returns it. `id` stands for the value of `uuid()`.
     * Nothing is checked: a date that is already taken is stored again, and
     * ids stay pairwise distinct only when the generated id is new.
     */
    method Create(provider_id: ProviderId, date: Date, id: Uuid) returns (created: Appointment)
      modifies this
      ensures created == Appointment(id, provider_id, date)
      ensures appointments == old(appointments) + [created]
      ensures forall d :: (FirstMatch(appointments, d) ==
                             if HasDate(old(appointments), d) then FirstMatch(old(appointments), d)
                             else if d == date then Some(created)
                             else None)
      ensures DistinctIds(old(appointments)) && id !in Ids(old(appointments)) ==>
        DistinctIds(appointments)
    {
      created := Appointment(id, provider_id, date);
      forall d | true
        ensures FirstMatch(appointments + [created], d) ==
          if HasDate(appointments, d) then FirstMatch(appointments, d)
          else if d == date then Some(created)
          else None
      {
        FirstMatchAppend(appointments, created, d);
      }
      if DistinctIds(appointments) && id !in Ids(appointments) {
        FreshIdKeepsDistinctIds(appointments, created);
      }
      appointments := appointments + [created];
    }
  }

  /**
   * The booking protocol the repository leaves to its callers: look the date
   * up first and create only when nothing is found. A repository that holds
   * at most one appointment per date keeps holding at most one per date.
   */
  method BookIfFree(repository: AppointmentsRepository, provider_id: ProviderId, date: Date, id: Uuid)
    returns (booked: Option<Appointment>)
    requires DistinctDates(repository.appointments)
    modifies repository
    ensures booked.None? <==> HasDate(old(repository.appointments), date)
    ensures booked.Some? ==>
      booked.value == Appointment(id, provider_id, date) &&
      repository.appointments == old(repository.appointments) + [booked.value]
    ensures booked.None? ==> repository.appointments == old(repository.appointments)
    ensures DistinctDates(repository.appointments)
  {
    var existing := repository.FindByDate(date);
    if existing.None? {
      GuardedAppendKeepsDistinctDates(repository.appointments, Appointment(id, provider_id, date));
      var created := repository.Create(provider_id, date, id);
      booked := Some(created);
    } else {
      booked := None;
    }
  }

  /** An empty repository finds nothing, whatever the date. */
  method LookupInEmptyRepository(date: Date) returns (found: Option<Appointment>)
    ensures found == None
  {
    var repository := new AppointmentsRepository();
    found := repository.FindByDate(date);
  }

  /**
   * Creating an appointment and then looking up its date returns the very
   * appointment that was created, with the given provider and date.
   */
  method CreateThenLookup(provider_id: ProviderId, date: Date, id: Uuid)
    returns (created: Appointment, found: Option<Appointment>)
    ensures created.id == id && created.provider_id == provider_id && created.date == date
    ensures found == Some(created)
  {
    var repository := new AppointmentsRepository();
    created := repository.Create(provider_id, date, id);
    found := repository.FindByDate(date);
  }

  /**
   * Two appointments on different dates are each found by their own date,
   * and a third date that was never used finds nothing.
   */
  method LookupTwoDates(p1: ProviderId, t1: Date, id1: Uuid, p2: ProviderId, t2: Date, id2: Uuid, t3: Date)
    returns (found1: Option<Appointment>, found2: Option<Appointment>, found3: Option<Appointment>)
    requires t1 != t2 && t3 != t1 && t3 != t2
    ensures found1 == Some(Appointment(id1, p1, t1))
    ensures found2 == Some(Appointment(id2, p2, t2))
    ensures found3 == None
  {
    var repository := new AppointmentsRepository();
    var a1 := repository.Create(p1, t1, id1);
    var a2 := repository.Create(p2, t2, id2);
    found1 := repository.FindByDate(t1);
    found2 := repository.FindByDate(t2);
    found3 := repository.FindByDate(t3);
  }

  /**
   * Creating twice on the same date succeeds both times: both appointments
   * are stored, and a lookup on that date returns the older one.
   */
  method CreateTwiceOnOneDate(p1: ProviderId, id1: Uuid, p2: ProviderId, id2: Uuid, date: Date)
    returns (first: Appointment, second: Appointment, stored: seq<Appointment>, found: Option<Appointment>)
    ensures stored == [first, second]
    ensures first.date == date && second.date == date
    ensures id1 != id2 ==> first != second
    ensures found == Some(first)
  {
    var repository := new AppointmentsRepository();
    first := repository.Create(p1, date, id1);
    second := repository.Create(p2, date, id2);
    stored := repository.appointments;
    found := repository.FindByDate(date);
  }
}
