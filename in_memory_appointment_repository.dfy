/** The in-memory repository: a private array of appointments grown by `push`. */
module InMemoryRepository {
  import opened Wrappers
  import opened TimeSlots
  import opened Appointments
  import AppointmentQueries

  class InMemoryAppointmentRepository {
    /** The stored appointments, in insertion order. */
    var appointments: seq<Appointment>

    constructor()
      ensures appointments == []
    {
      appointments := [];
    }

    /** `save`: append one appointment at the end; nothing before it moves or changes. */
    method Save(appointment: Appointment)
      modifies this
      ensures appointments == old(appointments) + [appointment]
      ensures |appointments| == |old(appointments)| + 1
      ensures appointments[|appointments| - 1] == appointment
      ensures appointments[..|old(appointments)|] == old(appointments)
    {
      appointments := appointments + [appointment];
    }

    /** `findById`; reads the store without changing it. */
    method FindById(id: string) returns (r: Option<Appointment>)
      ensures r == AppointmentQueries.FindById(appointments, id)
      ensures r.Some? ==> r.value in appointments && r.value.id == id
    {
      r := AppointmentQueries.FindById(appointments, id);
    }

    /** `findByProviderAndTimeSlot`; reads the store without changing it. */
    method FindByProviderAndTimeSlot(providerId: string, slot: TimeSlot) returns (r: Option<Appointment>)
      ensures r == AppointmentQueries.FindByProviderAndTimeSlot(appointments, providerId, slot)
      ensures r.Some? ==> r.value in appointments && r.value.providerId == providerId && Equals(r.value.timeSlot, slot)
    {
      r := AppointmentQueries.FindByProviderAndTimeSlot(appointments, providerId, slot);
    }

    /** `findAllByClientId`; reads the store without changing it. */
    method FindAllByClientId(clientId: string) returns (r: seq<Appointment>)
      ensures r == AppointmentQueries.FindAllByClientId(appointments, clientId)
      ensures forall i :: 0 <= i < |r| ==> r[i] in appointments && r[i].clientId == clientId
    {
      r := AppointmentQueries.FindAllByClientId(appointments, clientId);
    }
  }
}
