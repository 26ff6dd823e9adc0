/**
 * The appointment entity and the specification of an ordered collection of
 * appointments: what "the first appointment on a date" means, and which
 * properties the collection keeps when an appointment is appended.
 */
module Appointments {
  import opened Wrappers

  /** The string produced by `uuid()` when an appointment is created. */
  type Uuid = string

  /** Reference to the provider the appointment is with; never checked here. */
  type ProviderId = string

  /**
   * A JavaScript `Date` object. The repository compares dates with `===`,
   * which on objects is identity, so the only thing the model knows about a
   * date is its equality; no timestamp, no ordering, no ranges.
   */
  type Date(==)

  /** One stored appointment: the record `{ id, provider_id, date }`. */
  datatype Appointment = Appointment(id: Uuid, provider_id: ProviderId, date: Date)

  /** Some appointment in `s` is on `date`. */
  ghost predicate HasDate(s: seq<Appointment>, date: Date) {
    exists i :: 0 <= i < |s| && s[i].date == date
  }

  /** Index `i` holds an appointment on `date` and no earlier index does. */
  ghost predicate IsFirstMatch(s: seq<Appointment>, date: Date, i: int) {
    && 0 <= i < |s|
    && s[i].date == date
    && forall j :: 0 <= j < i ==> s[j].date != date
  }

  /**
   * The result of `Array.prototype.find` with the predicate "date equals
   * `date`": the earliest matching element, or `None`.
   */
  function FirstMatch(s: seq<Appointment>, date: Date): (r: Option<Appointment>)
    ensures r.None? <==> !HasDate(s, date)
    ensures r.Some? ==> exists i :: IsFirstMatch(s, date, i) && s[i] == r.value
  {
    if s == [] then None
    else if s[0].date == date then
      assert IsFirstMatch(s, date, 0);
      Some(s[0])
    else
      var r := FirstMatch(s[1..], date);
      assert HasDate(s[1..], date) <==> HasDate(s, date) by {
        if HasDate(s, date) {
          var i :| 0 <= i < |s| && s[i].date == date;
          assert s[1..][i - 1].date == date;
        }
      }
      assert r.Some? ==> exists i :: IsFirstMatch(s, date, i) && s[i] == r.value by {
        if r.Some? {
          var i :| IsFirstMatch(s[1..], date, i) && s[1..][i] == r.value;
          assert IsFirstMatch(s, date, i + 1);
        }
      }
      r
  }

  /** The set of ids stored in `s`. */
  ghost function Ids(s: seq<Appointment>): set<Uuid> {
    set a | a in s :: a.id
  }

  /** No two stored appointments share an id. */
  ghost predicate DistinctIds(s: seq<Appointment>) {
    forall i, j :: 0 <= i < j < |s| ==> s[i].id != s[j].id
  }

  /** No two stored appointments share a date: the one-per-slot convention. */
  ghost predicate DistinctDates(s: seq<Appointment>) {
    forall i, j :: 0 <= i < j < |s| ==> s[i].date != s[j].date
  }

  /**
   * Appending one appointment changes a lookup only for a date nobody had
   * before: an existing date still finds its earliest appointment (duplicates
   * are kept but never returned), the new date finds the new appointment, and
   * every other date still finds nothing.
   */
  lemma {:induction false} FirstMatchAppend(s: seq<Appointment>, a: Appointment, date: Date)
    ensures FirstMatch(s + [a], date) ==
      if HasDate(s, date) then FirstMatch(s, date)
      else if a.date == date then Some(a)
      else None
  {
    if s == [] {
      assert s + [a] == [a];
    } else {
      assert (s + [a])[1..] == s[1..] + [a];
      FirstMatchAppend(s[1..], a, date);
    }
  }

  /**
   * When every date is used at most once, looking up the date of any stored
   * appointment returns exactly that appointment.
   */
  lemma DistinctDatesAllFound(s: seq<Appointment>, i: int)
    requires DistinctDates(s)
    requires 0 <= i < |s|
    ensures FirstMatch(s, s[i].date) == Some(s[i])
  {
  }

  /**
   * Appending an appointment whose id is not already stored keeps the ids
   * pairwise distinct.
   */
  lemma FreshIdKeepsDistinctIds(s: seq<Appointment>, a: Appointment)
    requires DistinctIds(s)
    requires a.id !in Ids(s)
    ensures DistinctIds(s + [a])
  {
  }

  /**
   * The caller's protocol: appending only after a lookup on the new date came
   * back empty keeps the one-appointment-per-date convention.
   */
  lemma GuardedAppendKeepsDistinctDates(s: seq<Appointment>, a: Appointment)
    requires DistinctDates(s)
    requires FirstMatch(s, a.date) == None
    ensures DistinctDates(s + [a])
  {
  }

  /**
   * Without that lookup nothing keeps the convention: appending on a date that
   * is already taken leaves two appointments on one date.
   */
  lemma UnguardedAppendBreaksDistinctDates(s: seq<Appointment>, a: Appointment)
    requires HasDate(s, a.date)
    ensures !DistinctDates(s + [a])
  {
    var i :| 0 <= i < |s| && s[i].date == a.date;
    assert (s + [a])[i].date == (s + [a])[|s|].date;
  }
}
