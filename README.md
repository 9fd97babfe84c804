# Appointment booking core, modelled in Dafny

This project models the booking core of the appointments module of a small
TypeScript service. A client books a time slot with a provider. The booking
is refused when the slot is malformed, when it starts before the current
time, or when the provider already holds an appointment with an equal slot.

The model has three parts, one per source file:

- **`TimeSlot`** (`time_slot.dfy`, module `TimeSlots`). This is a datatype of two instants, each an integer count of milliseconds.
  - `NewTimeSlot` is the validating constructor. It returns a `Result`, and the clock reading `now` is a parameter.
  - `DurationInMinutes` and `Equals` are pure functions.
- **`InMemoryAppointmentRepository`** (`in_memory_appointment_repository.dfy`). This is a class whose `appointments` field is a `seq<Appointment>`.
  - `Save` appends to it in place.
  - The three queries read it and change nothing. Each answers with a pure function of the stored sequence (`appointment_queries.dfy`).
  - Those functions are built from models of `Array.prototype.find` and `Array.prototype.filter` (`array_queries.dfy`).
- **`CreateAppointmentUseCase.execute`** (`create_appointment_use_case.dfy`). This is a method that modifies the repository, step by step, as the source does.
  - It is proved equal to the pure function `Book`.
  - Lemmas about `Book` show the following. Every call keeps the business invariant, which says no provider holds two appointments with equal slots. Every failure leaves the store unchanged. Ids stay unique when the generated id is fresh. Booking the same provider and slot twice fails the second time.

Conflicts are detected by **exact slot equality**, which is what the code does. Interval overlap is not checked. `Overlaps` and the lemma
`OverlappingSlotIsAccepted` form a clearly labelled extension. They show that a provider
booked for [10:00, 11:00) can still be booked for [10:30, 11:30). The
use case's own comment (src/modules/appointments/application/use-cases/CreateAppointmentUseCase.ts:42)
names the rule "no overlapping". The repository query it relies on
(src/modules/appointments/infra/repositories/InMemoryAppointmentRepository.ts:23-24)
compares slots with `equals` only. The model follows the code, and
`OverlappingSlotIsAccepted` exhibits the gap.

## Model

| member | source | states |
|---|---|---|
| `TimeSlots.NewTimeSlot` | src/modules/appointments/domain/value-objects/TimeSlot.ts:1-14 | succeeds iff start < end and start >= now, and then yields exactly (start, end). Start >= end always reports StartNotBeforeEnd, even when start is also in the past. Otherwise a start before now reports StartInPast(start, now). |
| `TimeSlots.DurationInMinutes` | src/modules/appointments/domain/value-objects/TimeSlot.ts:16-20 | the result is the floor of (end - start) / 60000: result * 60000 <= end - start < (result + 1) * 60000. It is non-negative for a slot with start < end. |
| `TimeSlots.DurationIsFloor` | src/modules/appointments/domain/value-objects/TimeSlot.ts:16-20 | any integer meeting the floor bounds equals the duration, so the bounds determine it |
| `TimeSlots.Equals` | src/modules/appointments/domain/value-objects/TimeSlot.ts:22-25 | equality of both endpoints coincides with value equality of the two slots |
| `TimeSlots.EqualsIsEquivalence` | src/modules/appointments/domain/value-objects/TimeSlot.ts:22-25 | `equals` is reflexive, symmetric and transitive |
| `TimeSlots.EqualSlotsOverlap` | src/modules/appointments/domain/value-objects/TimeSlot.ts:22-25 | extension: for a non-empty slot, equal slots overlap, so the code's equality check is a special case of an overlap check. Overlap is symmetric. |
| `ArrayQueries.FindIndex` | src/modules/appointments/infra/repositories/InMemoryAppointmentRepository.ts:13 | returns the least index whose element satisfies the callback. It returns none iff no element does. |
| `ArrayQueries.Find` | src/modules/appointments/infra/repositories/InMemoryAppointmentRepository.ts:13 | returns the element at the first satisfying index. It returns none iff no element satisfies the callback. |
| `ArrayQueries.Filter` | src/modules/appointments/infra/repositories/InMemoryAppointmentRepository.ts:30 | keeps exactly the satisfying elements, as a subsequence of the input in its order. |
| `ArrayQueries.FindIndexAppend` | src/modules/appointments/infra/repositories/InMemoryAppointmentRepository.ts:8-14 | after a push, the first match is unchanged if there was one. Otherwise it is the new last index when the new element matches. |
| `ArrayQueries.FindAppend` | src/modules/appointments/infra/repositories/InMemoryAppointmentRepository.ts:8-14 | `find` after a push returns the old answer if there was one, else the pushed element if it matches, else none |
| `ArrayQueries.FilterCount` | src/modules/appointments/infra/repositories/InMemoryAppointmentRepository.ts:30 | each satisfying value occurs in the result exactly as often as in the input, and no other value occurs |
| `ArrayQueries.FilterAppend` | src/modules/appointments/infra/repositories/InMemoryAppointmentRepository.ts:29-31 | `filter` distributes over concatenation, which fixes its order and multiplicities |
| `AppointmentQueries.FindById` | src/modules/appointments/infra/repositories/InMemoryAppointmentRepository.ts:12-14 | returns the first stored appointment with the id. It returns null iff no stored appointment has that id. |
| `AppointmentQueries.FindByProviderAndTimeSlot` | src/modules/appointments/infra/repositories/InMemoryAppointmentRepository.ts:16-27 | returns the first stored appointment with the provider and a slot equal to the given one. It returns null iff none has both. An equal slot under another provider never matches. |
| `AppointmentQueries.FindAllByClientId` | src/modules/appointments/infra/repositories/InMemoryAppointmentRepository.ts:29-31 | returns exactly the client's stored appointments, as a subsequence in insertion order. The result is empty for an unknown client. |
| `AppointmentQueries.FindAllByClientIdCount` | src/modules/appointments/infra/repositories/InMemoryAppointmentRepository.ts:29-31 | each of the client's stored appointments occurs in the result exactly as often as it is stored, and no other appointment occurs |
| `AppointmentQueries.FindByIdAfterSave` | src/modules/appointments/infra/repositories/InMemoryAppointmentRepository.ts:8-14 | a save never changes an existing `findById` answer. It makes a previously missing id answer with the saved appointment. |
| `AppointmentQueries.FindByIdFindsSaved` | src/modules/appointments/infra/repositories/InMemoryAppointmentRepository.ts:8-14 | after saving an appointment whose id was not stored, `findById` of that id returns it |
| `AppointmentQueries.FindByProviderAndTimeSlotAfterSave` | src/modules/appointments/infra/repositories/InMemoryAppointmentRepository.ts:8-27 | a save keeps an existing conflict answer. Otherwise the saved appointment answers for its own provider and slot, and the answer for any other pair stays null. |
| `AppointmentQueries.FindAllByClientIdAfterSave` | src/modules/appointments/infra/repositories/InMemoryAppointmentRepository.ts:8-31 | a save appends the appointment to its own client's list and leaves every other client's list unchanged |
| `InMemoryRepository.InMemoryAppointmentRepository.constructor` | src/modules/appointments/infra/repositories/InMemoryAppointmentRepository.ts:6 | the store starts empty |
| `InMemoryRepository.InMemoryAppointmentRepository.Save` | src/modules/appointments/infra/repositories/InMemoryAppointmentRepository.ts:8-10 | the store becomes the old store plus the appointment at the end. Its length grows by one and earlier elements are unchanged. |
| `InMemoryRepository.InMemoryAppointmentRepository.FindById` | src/modules/appointments/infra/repositories/InMemoryAppointmentRepository.ts:12-14 | answers with `AppointmentQueries.FindById` of the current store. It changes nothing, and a result is a stored appointment with that id. |
| `InMemoryRepository.InMemoryAppointmentRepository.FindByProviderAndTimeSlot` | src/modules/appointments/infra/repositories/InMemoryAppointmentRepository.ts:16-27 | answers with `AppointmentQueries.FindByProviderAndTimeSlot` of the current store. It changes nothing, and a result is stored, has the provider and has an equal slot. |
| `InMemoryRepository.InMemoryAppointmentRepository.FindAllByClientId` | src/modules/appointments/infra/repositories/InMemoryAppointmentRepository.ts:29-31 | answers with `AppointmentQueries.FindAllByClientId` of the current store. It changes nothing, and every element is stored and belongs to the client. |
| `CreateAppointment.Book` | src/modules/appointments/application/use-cases/CreateAppointmentUseCase.ts:16-36 | a failure leaves the store unchanged. A success appends exactly one appointment carrying the new id, client, provider and slot. It succeeds iff the slot is valid at `now` and no stored appointment of the provider has an equal slot. Slot errors are propagated as they are. The conflict error is reported iff the slot is valid and such an appointment exists. |
| `CreateAppointment.BookPreservesNoDoubleBooking` | src/modules/appointments/application/use-cases/CreateAppointmentUseCase.ts:19-35 | if no provider held two equal slots before a call, none does after it, whether the call succeeds or fails |
| `CreateAppointment.BookKeepsIdsUnique` | src/modules/appointments/application/use-cases/CreateAppointmentUseCase.ts:28-35 | with a generated id not already stored, ids in the store stay pairwise distinct |
| `CreateAppointment.SecondBookingFails` | src/modules/appointments/application/use-cases/CreateAppointmentUseCase.ts:19-26 | after a successful booking, the same request fails again and leaves the store unchanged. If the slot has not started by the second clock reading, the failure is the conflict error. |
| `CreateAppointment.OtherProviderSameSlotSucceeds` | src/modules/appointments/application/use-cases/CreateAppointmentUseCase.ts:19-35 | the same slot can still be booked with a different provider who holds no appointment with that slot |
| `CreateAppointment.OverlappingSlotIsAccepted` | src/modules/appointments/application/use-cases/CreateAppointmentUseCase.ts:19-26 | extension: two overlapping but unequal slots for one provider are both accepted, because conflicts are equality only |
| `CreateAppointment.CreateAppointmentUseCase.constructor` | src/modules/appointments/application/use-cases/CreateAppointmentUseCase.ts:14 | the use case books into the repository it is given |
| `CreateAppointment.CreateAppointmentUseCase.Execute` | src/modules/appointments/application/use-cases/CreateAppointmentUseCase.ts:16-36 | the outcome and the new store are what `Book` gives for the old store. A failure leaves the repository unchanged, and the no-double-booking invariant is kept. |

## Left out

- Instants are unbounded integers, and the `Date` range limit is not modelled.
- The invalid date is not modelled. Its time value is `NaN`, which makes every `<`, `>=` and `===` comparison false. An invalid `start` makes both checks at TimeSlot.ts:6 and :9 false, so the slot is accepted. An invalid `end` passes the check at :6, and the slot is accepted iff `start` is not in the past. In both cases `equals` never matches the slot, not even against itself.
- Dates are modelled as immutable values. In the source a `TimeSlot` holds the caller's own mutable `Date` objects: `readonly` fixes only the field binding, `execute` passes `data.start` and `data.end` through, and `findById` and `findAllByClientId` hand out the stored objects themselves. A caller's `setTime` on such a `Date` changes a stored slot without any `save`, and can break the no-double-booking invariant. That aliasing is not captured. `BookPreservesNoDoubleBooking` and `CreateAppointmentUseCase.Execute` hold only when no stored `Date` is mutated between calls.
- `Date.now()` and `new Date()` are read as the parameter `now`. `uuidv4()` becomes the parameter `newId`. There is no randomness or clock in the model.
- Error message text is not modelled, including the `toISOString()` formatting of dates. Only the error kinds and the values they mention are.
- `async`/`Promise` are not modelled, and every repository call is synchronous. The check-then-insert race between concurrent `execute` calls is outside this sequential model.
- `IAppointmentRepository` (src/modules/appointments/domain/repositories/IAppointmentRepository.ts) is not part of this model. The use case takes the in-memory repository class directly, so the abstraction seam is not represented.
- The Express server, the HTTP controller and the bootstrap script are not part of this model. They are transport and wiring.
- Interval-overlap conflicts are not behaviour of the code. They appear only as the labelled extension described above.
