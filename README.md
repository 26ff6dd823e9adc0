# In-memory appointments repository

A model of `AppointmentsRepository` from
`Level-2/primeiro-projeto-node/src/modules/appointments/repositories/fakes/FakeAppointmentsRepository.ts`,
the in-memory test double of the GoBarber appointment store. The repository owns a private list of
appointments that starts empty and only grows. `findByDate` returns the first stored appointment whose
`date` is `===` to the argument, or `undefined`; `create` builds `{ id: uuid(), provider_id, date }`,
pushes it and returns it, without checking whether the date is already taken.

Files:

- `wrappers.dfy`: `Option`, whose `None` stands for `undefined`.
- `appointments.dfy` (module `Appointments`): the appointment record, the type `Date`, and the
  specification of the stored list. `FirstMatch` defines `Array.prototype.find` by date, and the lemmas
  say how a lookup and the id and date conventions behave when one appointment is appended.
- `fake_appointments_repository.dfy` (module `FakeAppointmentsRepository`): the class
  `AppointmentsRepository` with its `appointments` field, `FindByDate` (a loop over the list) and
  `Create`, plus four client methods that run the repository through the usual usage scenarios.

Modelling choices:

- `Date` is an abstract type with equality only. The source compares `Date` objects with `===`,
  which is object identity, so the model claims nothing about timestamps, ordering or ranges.
  Timestamps are never compared: two distinct `Date` objects for the same instant do not match.
- `uuid()` is a random source, so `Create` takes the generated id as the parameter `id`. `Create`
  has no precondition on it, because the code checks nothing. Ids stay pairwise distinct only when
  the id is new, and `Create` states exactly that implication.
- `FindByDate` has no `modifies` clause, so Dafny guarantees that the lookup changes nothing.
- The one-appointment-per-date rule is only a convention of the callers.
  `GuardedAppendKeepsDistinctDates` proves that the caller's "look up first, create only if absent"
  protocol keeps it, and the client method `BookIfFree` applies that protocol to a real repository.
  `UnguardedAppendBreaksDistinctDates` proves that the repository alone does not.

## Model

| member | source | states |
|---|---|---|
| `Appointments.FirstMatch` | Level-2/primeiro-projeto-node/src/modules/appointments/repositories/fakes/FakeAppointmentsRepository.ts:11-13 | the `find` result is absent exactly when no stored appointment has the date; otherwise it is the appointment at the earliest index with that date |
| `FakeAppointmentsRepository.AppointmentsRepository.constructor` | Level-2/primeiro-projeto-node/src/modules/appointments/repositories/fakes/FakeAppointmentsRepository.ts:8 | a new repository holds no appointments |
| `FakeAppointmentsRepository.AppointmentsRepository.FindByDate` | Level-2/primeiro-projeto-node/src/modules/appointments/repositories/fakes/FakeAppointmentsRepository.ts:10-16 | the scan returns `None` iff no stored appointment has the date, otherwise the earliest one that has it (no earlier element matches); it agrees with `FirstMatch` and modifies nothing |
| `FakeAppointmentsRepository.AppointmentsRepository.Create` | Level-2/primeiro-projeto-node/src/modules/appointments/repositories/fakes/FakeAppointmentsRepository.ts:18-34 | returns `{id, provider_id, date}` built from exactly the inputs; the new list is the old list plus that appointment; afterwards a lookup of an already-used date is unchanged, the new date finds the new appointment, other dates still find nothing; ids stay distinct when the id was new |
| `Appointments.FirstMatchAppend` | Level-2/primeiro-projeto-node/src/modules/appointments/repositories/fakes/FakeAppointmentsRepository.ts:11-13 | appending one appointment changes a lookup only for a date absent before, which then finds the appended appointment; a date already present keeps returning its older appointment |
| `Appointments.DistinctDatesAllFound` | Level-2/primeiro-projeto-node/src/modules/appointments/repositories/fakes/FakeAppointmentsRepository.ts:11-13 | when all stored dates differ, looking up the date of any stored appointment returns that appointment |
| `Appointments.FreshIdKeepsDistinctIds` | Level-2/primeiro-projeto-node/src/modules/appointments/repositories/fakes/FakeAppointmentsRepository.ts:24-31 | appending an appointment whose id is not yet stored keeps all stored ids pairwise distinct |
| `Appointments.GuardedAppendKeepsDistinctDates` | Level-2/primeiro-projeto-node/src/modules/appointments/repositories/fakes/FakeAppointmentsRepository.ts:10-31 | appending only after the lookup of the new date found nothing keeps at most one appointment per date |
| `Appointments.UnguardedAppendBreaksDistinctDates` | Level-2/primeiro-projeto-node/src/modules/appointments/repositories/fakes/FakeAppointmentsRepository.ts:18-34 | `create` has no duplicate check: appending on a date already present leaves two appointments on that date |
| `FakeAppointmentsRepository.BookIfFree` | Level-2/primeiro-projeto-node/src/modules/appointments/repositories/fakes/FakeAppointmentsRepository.ts:10-34 | a caller that creates only when `findByDate` found nothing books exactly when the date was free, and a repository with one appointment per date keeps one appointment per date |
| `FakeAppointmentsRepository.LookupInEmptyRepository` | Level-2/primeiro-projeto-node/src/modules/appointments/repositories/fakes/FakeAppointmentsRepository.ts:8-16 | a freshly built repository returns absent for every date |
| `FakeAppointmentsRepository.CreateThenLookup` | Level-2/primeiro-projeto-node/src/modules/appointments/repositories/fakes/FakeAppointmentsRepository.ts:10-34 | after `create(p, d)` with id `i`, the result is `{i, p, d}` and `findByDate(d)` returns that same appointment |
| `FakeAppointmentsRepository.LookupTwoDates` | Level-2/primeiro-projeto-node/src/modules/appointments/repositories/fakes/FakeAppointmentsRepository.ts:10-34 | after creating on two different dates each date finds its own appointment and an unused date finds nothing |
| `FakeAppointmentsRepository.CreateTwiceOnOneDate` | Level-2/primeiro-projeto-node/src/modules/appointments/repositories/fakes/FakeAppointmentsRepository.ts:10-34 | creating twice on one date succeeds both times, stores both in order, yields two different appointments when the ids differ, and the lookup returns the older one |

## Left out

- `uuid()` from `uuidv4` (line 24) is a random foreign call. It becomes the caller-supplied `id` of `Create`.
- Create: does not promise id uniqueness outright, because that rests on the randomness of `uuid()`. It promises distinct ids only when the supplied id is not already stored.
- The `async`/`Promise` wrapping of both methods is left out. Nothing inside is awaited, so they are modelled as synchronous methods.
- The `Object.assign` merge onto a TypeORM `Appointment` entity (lines 22-24) becomes direct construction of a record value.
- Aliasing is not modelled. `create` returns the same object it pushed, so in the source a caller that mutates the returned entity also changes the stored one. The model stores immutable values.
- The TypeORM entity, the `IAppointmentsRepository` interface and `ICreateAppointmentDTO` are not part of this model. Only their fields `id`, `provider_id` and `date` are used.
- Dafny has no `private`, so the `appointments` field is visible to callers, and the scenario method `CreateTwiceOnOneDate` reads it. That the list is append-only is guaranteed only by the `ensures` of `Create`, the one method that modifies it.
- Concurrent callers racing a lookup and a create are not modelled. The model is sequential.
- The sign-up page (`gobarber/gobarber-web/src/pages/SignUp/index.tsx`) and the input styles (`Level-2/gobarber-web/src/components/input/styles.ts`) are not modelled. They are UI wiring, form validation delegated to a library, an HTTP call, navigation, toasts and CSS, with no logic of their own to verify.
