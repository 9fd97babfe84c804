/**
 * The `TimeSlot` value object: a pair of instants, each an integer number of
 * milliseconds since the epoch (the value of `Date.getTime()`).
 */
module TimeSlots {
  import opened Wrappers

  /** Milliseconds in one minute. */
  const MillisecondsInAMinute: int := 60000

  datatype TimeSlot = TimeSlot(start: int, end: int)

  /** Why the constructor refused a slot; the message text is not modelled. */
  datatype SlotError =
    | StartNotBeforeEnd                   // "Start time must be before end time."
    | StartInPast(start: int, now: int)   // "Invalid time slot: start time (...) is in the past. ..."

  /** What the constructor guarantees of every slot it lets through, at clock reading `now`. */
  predicate IsValid(slot: TimeSlot, now: int) {
    slot.start < slot.end && now <= slot.start
  }

  /**
   * `new TimeSlot(start, end)` with `Date.now()` read as `now`. The ordering
   * check runs first, so a slot that is both backwards and in the past reports
   * StartNotBeforeEnd.
   */
  function NewTimeSlot(start: int, end: int, now: int): (r: Result<TimeSlot, SlotError>)
    ensures r.Success? <==> start < end && now <= start
    ensures r.Success? ==> r.value == TimeSlot(start, end) && IsValid(r.value, now)
    ensures start >= end ==> r == Failure(StartNotBeforeEnd)
    ensures start < end && start < now ==> r == Failure(StartInPast(start, now))
  {
    if start >= end then Failure(StartNotBeforeEnd)
    else if start < now then Failure(StartInPast(start, now))
    else Success(TimeSlot(start, end))
  }

  /**
   * `getDurationInMinutes`: the length in whole minutes, rounded down. Dafny's
   * `/` by a positive divisor rounds toward negative infinity, as `Math.floor`
   * of the quotient does.
   */
  function DurationInMinutes(slot: TimeSlot): (minutes: int)
    ensures minutes * MillisecondsInAMinute <= slot.end - slot.start < (minutes + 1) * MillisecondsInAMinute
    ensures slot.start < slot.end ==> minutes >= 0
  {
    (slot.end - slot.start) / MillisecondsInAMinute
  }

  /** `equals`: value equality of the two endpoints. */
  predicate Equals(a: TimeSlot, b: TimeSlot)
    ensures Equals(a, b) <==> a == b
  {
    a.start == b.start && a.end == b.end
  }

  /** The duration is determined by the floor bounds: no other integer meets them. */
  lemma DurationIsFloor(slot: TimeSlot, m: int)
    requires m * MillisecondsInAMinute <= slot.end - slot.start < (m + 1) * MillisecondsInAMinute
    ensures DurationInMinutes(slot) == m
  {
  }

  /** `equals` is an equivalence relation. */
  lemma EqualsIsEquivalence(a: TimeSlot, b: TimeSlot, c: TimeSlot)
    ensures Equals(a, a)
    ensures Equals(a, b) <==> Equals(b, a)
    ensures Equals(a, b) && Equals(b, c) ==> Equals(a, c)
  {
  }

  // ---------------------------------------------------------------------------
  // Extension, not behaviour of the code: half-open interval overlap. The
  // booking rule of the code compares slots with Equals only; Overlaps is
  // defined here to state what that rule does not catch.
  // ---------------------------------------------------------------------------

  /** [a.start, a.end) and [b.start, b.end) share an instant. */
  predicate Overlaps(a: TimeSlot, b: TimeSlot) {
    a.start < b.end && b.start < a.end
  }

  /** Equality is a special case of overlap for non-empty slots, and overlap is symmetric. */
  lemma EqualSlotsOverlap(a: TimeSlot, b: TimeSlot)
    requires a.start < a.end
    ensures Equals(a, b) ==> Overlaps(a, b)
    ensures Overlaps(a, b) <==> Overlaps(b, a)
  {
  }
}
