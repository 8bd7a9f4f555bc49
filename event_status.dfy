/**
 * `computeEventStatus`: the lifecycle status of an auction event derived
 * from its start and end times and the current time, overriding the stored
 * status column.
 */
module EventStatus {
  import opened Wrappers

  datatype AuctionStatus = Draft | Scheduled | Live | Ended

  /** The columns the function reads; a null or empty timestamp is None. */
  datatype EventRow = EventRow(status: AuctionStatus, startsAt: Option<int>, endsAt: Option<int>)

  function ComputeEventStatus(event: EventRow, now: int): AuctionStatus {
    if event.startsAt.None? || event.endsAt.None? then Draft
    else if now >= event.endsAt.value then Ended
    else if now >= event.startsAt.value then Live
    else Scheduled
  }

  /**
   * Draft exactly when a time is missing; with both times set, Ended from the
   * end instant on (inclusive), Live on the half-open interval [start, end),
   * Scheduled otherwise. An event whose start lies after its end is Ended
   * from its end on, Scheduled before it, and never Live.
   */
  lemma StatusCases(event: EventRow, now: int)
    ensures var r := ComputeEventStatus(event, now);
      && (r == Draft <==> event.startsAt.None? || event.endsAt.None?)
      && (event.startsAt.Some? && event.endsAt.Some? ==>
            var start, end := event.startsAt.value, event.endsAt.value;
            && (r == Ended <==> now >= end)
            && (r == Live <==> start <= now < end)
            && (r == Scheduled <==> now < start && now < end))
  {
  }

  /** The stored `status` column never affects the result. */
  lemma StoredStatusIgnored(event: EventRow, stored: AuctionStatus, now: int)
    ensures ComputeEventStatus(event.(status := stored), now) == ComputeEventStatus(event, now)
  {
  }
}
