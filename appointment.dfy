/** The `Appointment` entity: an immutable record binding a client, a provider and a slot. */
module Appointments {
  import opened TimeSlots

  datatype Appointment = Appointment(id: string, clientId: string, providerId: string, timeSlot: TimeSlot)
}
