/**
 * The booking use case: build the slot, look for an appointment of the same
 * provider with an equal slot, refuse if there is one, otherwise store a new
 * appointment. The clock reading `now` and the generated id `newId` are
 * parameters.
 */
module CreateAppointment {
  import opened Wrappers
  import opened TimeSlots
  import opened Appointments
  import opened AppointmentQueries
  import opened InMemoryRepository

  /** The input of `execute` (`CreateAppointmentDTO`), instants in milliseconds. */
  datatype CreateAppointmentRequest = CreateAppointmentRequest(clientId: string, providerId: string, start: int, end: int)

  datatype CreateAppointmentError =
    | InvalidTimeSlot(cause: SlotError)   // thrown by the TimeSlot constructor, propagated as is
    | ProviderAlreadyBooked               // "Provider already has an appointment at this time."

  /** The business invariant: no provider holds two appointments with equal slots. */
  ghost predicate NoDoubleBooking(store: seq<Appointment>) {
    forall i, j :: 0 <= i < j < |store| && store[i].providerId == store[j].providerId ==>
      !Equals(store[i].timeSlot, store[j].timeSlot)
  }

  /** No two stored appointments share an id. */
  ghost predicate UniqueIds(store: seq<Appointment>) {
    forall i, j :: 0 <= i < j < |store| ==> store[i].id != store[j].id
  }

  /** The effect of one `execute` call on the stored array: its outcome and the array afterwards. */
  function Book(store: seq<Appointment>, req: CreateAppointmentRequest, now: int, newId: string)
    : (out: (Outcome<CreateAppointmentError>, seq<Appointment>))
    ensures out.0.Fail? ==> out.1 == store
    ensures out.0.Pass? ==> out.1 == store + [Appointment(newId, req.clientId, req.providerId, TimeSlot(req.start, req.end))]
    ensures out.0.Pass? <==>
              req.start < req.end && now <= req.start &&
              forall i :: 0 <= i < |store| ==>
                !(store[i].providerId == req.providerId && store[i].timeSlot == TimeSlot(req.start, req.end))
    ensures req.start >= req.end ==> out.0 == Fail(InvalidTimeSlot(StartNotBeforeEnd))
    ensures req.start < req.end && req.start < now ==> out.0 == Fail(InvalidTimeSlot(StartInPast(req.start, now)))
    ensures out.0 == Fail(ProviderAlreadyBooked) <==>
              IsValid(TimeSlot(req.start, req.end), now) &&
              exists i :: 0 <= i < |store| && store[i].providerId == req.providerId && store[i].timeSlot == TimeSlot(req.start, req.end)
  {
    match NewTimeSlot(req.start, req.end, now)
    case Failure(e) => (Fail(InvalidTimeSlot(e)), store)
    case Success(slot) =>
      if FindByProviderAndTimeSlot(store, req.providerId, slot).Some? then (Fail(ProviderAlreadyBooked), store)
      else (Pass, store + [Appointment(newId, req.clientId, req.providerId, slot)])
  }

  /** Every call, successful or not, keeps the no-double-booking invariant. */
  lemma BookPreservesNoDoubleBooking(store: seq<Appointment>, req: CreateAppointmentRequest, now: int, newId: string)
    requires NoDoubleBooking(store)
    ensures NoDoubleBooking(Book(store, req, now, newId).1)
  {
  }

  /** With a generated id not already stored, ids stay unique. */
  lemma BookKeepsIdsUnique(store: seq<Appointment>, req: CreateAppointmentRequest, now: int, newId: string)
    requires UniqueIds(store)
    requires forall i :: 0 <= i < |store| ==> store[i].id != newId
    ensures UniqueIds(Book(store, req, now, newId).1)
  {
  }

  /**
   * Booking the same provider and slot again right after a successful booking
   * fails and stores nothing, whatever the clock and id of the second call; it
   * fails as a conflict when the slot has not yet started by the second call's clock.
   */
  lemma SecondBookingFails(store: seq<Appointment>, req: CreateAppointmentRequest, now1: int, id1: string, now2: int, id2: string)
    requires Book(store, req, now1, id1).0.Pass?
    ensures var after := Book(store, req, now1, id1).1;
            Book(after, req, now2, id2).0.Fail? && Book(after, req, now2, id2).1 == after
    ensures now2 <= req.start ==>
              Book(Book(store, req, now1, id1).1, req, now2, id2).0 == Fail(ProviderAlreadyBooked)
  {
    var after := Book(store, req, now1, id1).1;
    assert after[|store|].providerId == req.providerId && after[|store|].timeSlot == TimeSlot(req.start, req.end);
  }

  /** The same slot for a different provider is not a conflict. */
  lemma OtherProviderSameSlotSucceeds(store: seq<Appointment>, req: CreateAppointmentRequest, now: int, id1: string, otherProvider: string, id2: string)
    requires Book(store, req, now, id1).0.Pass?
    requires otherProvider != req.providerId
    requires forall i :: 0 <= i < |store| ==>
               !(store[i].providerId == otherProvider && store[i].timeSlot == TimeSlot(req.start, req.end))
    ensures Book(Book(store, req, now, id1).1, req.(providerId := otherProvider), now, id2).0.Pass?
  {
  }

  /**
   * Extension, not behaviour of the code: the rule compares slots with Equals,
   * so a provider booked for [10:00, 11:00) can still be booked for the
   * overlapping [10:30, 11:30). Instants are minutes here, scaled by 60000.
   */
  lemma OverlappingSlotIsAccepted(id1: string, id2: string)
    ensures var m := MillisecondsInAMinute;
            var first := CreateAppointmentRequest("client-a", "provider-x", 600 * m, 660 * m);
            var second := CreateAppointmentRequest("client-b", "provider-x", 630 * m, 690 * m);
            var after := Book([], first, 0, id1).1;
            Book([], first, 0, id1).0.Pass? &&
            Overlaps(TimeSlot(first.start, first.end), TimeSlot(second.start, second.end)) &&
            Book(after, second, 0, id2).0.Pass?
  {
  }

  /** `CreateAppointmentUseCase`, holding the repository it books into. */
  class CreateAppointmentUseCase {
    const repository: InMemoryAppointmentRepository

    constructor(repository: InMemoryAppointmentRepository)
      ensures this.repository == repository
    {
      this.repository := repository;
    }

    /** `execute`: check then insert, reading the clock as `now` and taking the generated id as `newId`. */
    method Execute(req: CreateAppointmentRequest, now: int, newId: string) returns (outcome: Outcome<CreateAppointmentError>)
      modifies repository
      ensures (outcome, repository.appointments) == Book(old(repository.appointments), req, now, newId)
      ensures outcome.Fail? ==> repository.appointments == old(repository.appointments)
      ensures NoDoubleBooking(old(repository.appointments)) ==> NoDoubleBooking(repository.appointments)
    {
      var slotResult := NewTimeSlot(req.start, req.end, now);
      if slotResult.Failure? {
        outcome := Fail(InvalidTimeSlot(slotResult.error));
      } else {
        var slot := slotResult.value;
        var existing := repository.FindByProviderAndTimeSlot(req.providerId, slot);
        if existing.Some? {
          outcome := Fail(ProviderAlreadyBooked);
        } else {
          var appointment := Appointment(newId, req.clientId, req.providerId, slot);
          repository.Save(appointment);
          outcome := Pass;
        }
      }
      if NoDoubleBooking(old(repository.appointments)) {
        BookPreservesNoDoubleBooking(old(repository.appointments), req, now, newId);
      }
    }
  }
}
