/**
 * The repository's three queries as functions of the stored array, in
 * insertion order. InMemoryRepository answers each query with these.
 */
module AppointmentQueries {
  import opened Wrappers
  import opened TimeSlots
  import opened Appointments
  import opened ArrayQueries

  /** `findById`: the first stored appointment with this id, None (`null`) when there is none. */
  function FindById(store: seq<Appointment>, id: string): (r: Option<Appointment>)
    ensures r.None? <==> forall i :: 0 <= i < |store| ==> store[i].id != id
    ensures r.Some? ==> exists k :: 0 <= k < |store| && store[k] == r.value && r.value.id == id &&
                                     forall j :: 0 <= j < k ==> store[j].id != id
  {
    Find(store, (a: Appointment) => a.id == id)
  }

  /**
   * `findByProviderAndTimeSlot`: the first stored appointment of this provider
   * whose slot `equals` the given one. A slot that merely overlaps does not match.
   */
  function FindByProviderAndTimeSlot(store: seq<Appointment>, providerId: string, slot: TimeSlot): (r: Option<Appointment>)
    ensures r.None? <==> forall i :: 0 <= i < |store| ==>
                           !(store[i].providerId == providerId && Equals(store[i].timeSlot, slot))
    ensures r.Some? ==> exists k :: 0 <= k < |store| && store[k] == r.value &&
                                     r.value.providerId == providerId && r.value.timeSlot == slot &&
                                     forall j :: 0 <= j < k ==> !(store[j].providerId == providerId && Equals(store[j].timeSlot, slot))
  {
    Find(store, (a: Appointment) => a.providerId == providerId && Equals(a.timeSlot, slot))
  }

  /** `findAllByClientId`: every stored appointment of this client, in insertion order. */
  function FindAllByClientId(store: seq<Appointment>, clientId: string): (r: seq<Appointment>)
    ensures forall i :: 0 <= i < |r| ==> r[i] in store && r[i].clientId == clientId
    ensures forall i :: 0 <= i < |store| && store[i].clientId == clientId ==> store[i] in r
    ensures SubsequenceOf(r, store)
    ensures (forall i :: 0 <= i < |store| ==> store[i].clientId != clientId) ==> r == []
  {
    Filter(store, (a: Appointment) => a.clientId == clientId)
  }

  /** A client's list holds each of their stored appointments as often as it is stored, and nothing else. */
  lemma FindAllByClientIdCount(store: seq<Appointment>, clientId: string, a: Appointment)
    ensures multiset(FindAllByClientId(store, clientId))[a] == if a.clientId == clientId then multiset(store)[a] else 0
  {
    FilterCount(store, (b: Appointment) => b.clientId == clientId, a);
  }

  /** After `save(a)`, `findById` still returns what it returned before, and `a` for a new id. */
  lemma FindByIdAfterSave(store: seq<Appointment>, a: Appointment, id: string)
    ensures FindById(store + [a], id) ==
              if FindById(store, id).Some? then FindById(store, id)
              else if a.id == id then Some(a)
              else None
  {
    FindAppend(store, a, (b: Appointment) => b.id == id);
  }

  /** A saved appointment whose id was not stored before is what `findById` returns for that id. */
  lemma FindByIdFindsSaved(store: seq<Appointment>, a: Appointment)
    requires forall i :: 0 <= i < |store| ==> store[i].id != a.id
    ensures FindById(store + [a], a.id) == Some(a)
  {
    FindByIdAfterSave(store, a, a.id);
  }

  /** After `save(a)`, the provider-and-slot query is unchanged except that `a` now answers for its own provider and slot. */
  lemma FindByProviderAndTimeSlotAfterSave(store: seq<Appointment>, a: Appointment, providerId: string, slot: TimeSlot)
    ensures FindByProviderAndTimeSlot(store + [a], providerId, slot) ==
              if FindByProviderAndTimeSlot(store, providerId, slot).Some? then FindByProviderAndTimeSlot(store, providerId, slot)
              else if a.providerId == providerId && a.timeSlot == slot then Some(a)
              else None
  {
    FindAppend(store, a, (b: Appointment) => b.providerId == providerId && Equals(b.timeSlot, slot));
  }

  /** After `save(a)`, a client's list gains `a` at the end if it is theirs, and is otherwise unchanged. */
  lemma FindAllByClientIdAfterSave(store: seq<Appointment>, a: Appointment, clientId: string)
    ensures FindAllByClientId(store + [a], clientId) ==
              FindAllByClientId(store, clientId) + (if a.clientId == clientId then [a] else [])
  {
    var p := (b: Appointment) => b.clientId == clientId;
    FilterAppend(store, [a], p);
    assert [a][1..] == [];
  }
}
