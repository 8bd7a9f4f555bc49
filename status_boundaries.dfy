/**
 * How the three time classifications relate: `computeEventStatus`, the
 * listing pages' `computeStatus`, and the bid route's clock checks. They
 * agree away from the boundaries and disagree at the end instant, on
 * events whose start lies after their end, and on missing times.
 */
module StatusBoundaries {
  import opened Wrappers
  import opened Accounts
  import EventStatus
  import AuctionsPage
  import Bids

  /**
   * With both times set and the start not after the end, the event status
   * and the listing badge agree except at the end instant itself, which the
   * event status counts as ended and the listing as live.
   */
  lemma EventStatusVersusListing(start: int, end: int, now: int, stored: EventStatus.AuctionStatus)
    requires start <= end
    ensures var s := EventStatus.ComputeEventStatus(EventStatus.EventRow(stored, Some(start), Some(end)), now);
      var l := AuctionsPage.ComputeStatus(Some(start), Some(end), now);
      && (s == EventStatus.Scheduled <==> l == AuctionsPage.Upcoming)
      && (s == EventStatus.Live <==> l == AuctionsPage.Live && now != end)
      && (s == EventStatus.Ended <==> l == AuctionsPage.Ended || now == end)
      && l != AuctionsPage.Auction
  {
  }

  /**
   * At `now == end` the event status already says ended while the listing
   * says live and the bid route still accepts a bid from any request that
   * passes its other checks.
   */
  lemma EndInstantDisagreement(req: Bids.BidRequest, session: Session, profiles: map<UserId, Profile>,
                               items: map<Bids.ItemId, Bids.Item>, events: map<Bids.EventId, Bids.Event>,
                               bids: seq<Bids.Bid>, readFails: bool, stored: EventStatus.AuctionStatus)
    requires req.Body? && !Bids.Falsy(req.itemId)
    requires session.Some? && session.value in profiles
    requires !profiles[session.value].banned && profiles[session.value].approved
    requires req.itemId.value in items && items[req.itemId.value].sellerId != Some(session.value)
    requires items[req.itemId.value].eventId.Some? && items[req.itemId.value].eventId.value in events
    requires var e := events[items[req.itemId.value].eventId.value];
      e.startsAt.Some? && e.endsAt.Some? && e.startsAt.value <= e.endsAt.value
    ensures var e := events[items[req.itemId.value].eventId.value];
      var end := e.endsAt.value;
      && EventStatus.ComputeEventStatus(EventStatus.EventRow(stored, e.startsAt, e.endsAt), end) == EventStatus.Ended
      && AuctionsPage.ComputeStatus(e.startsAt, e.endsAt, end) == AuctionsPage.Live
      && Bids.Decide(req, session, profiles, items, events, bids, readFails, end).Ok?
  {
    var e := events[items[req.itemId.value].eventId.value];
    Bids.BiddingWindowInclusive(req, session, profiles, items, events, bids, readFails, e.endsAt.value);
  }

  /**
   * With both times set, the listing shows Live exactly when the bid route's
   * clock checks let a bid through.
   */
  lemma ListingLiveIffBiddingOpen(start: int, end: int, now: int)
    ensures AuctionsPage.ComputeStatus(Some(start), Some(end), now) == AuctionsPage.Live
      <==> !(now < Bids.DateOf(Some(start))) && !(now > Bids.DateOf(Some(end)))
  {
  }

  /**
   * An event whose start lies after its end (nothing at creation forbids
   * it) is ended for the event status but upcoming for the listing between
   * its end and its start, and never live for either.
   */
  lemma InvertedTimes(start: int, end: int, now: int, stored: EventStatus.AuctionStatus)
    requires end < start
    ensures end <= now < start ==>
      && EventStatus.ComputeEventStatus(EventStatus.EventRow(stored, Some(start), Some(end)), now) == EventStatus.Ended
      && AuctionsPage.ComputeStatus(Some(start), Some(end), now) == AuctionsPage.Upcoming
    ensures EventStatus.ComputeEventStatus(EventStatus.EventRow(stored, Some(start), Some(end)), now) != EventStatus.Live
    ensures AuctionsPage.ComputeStatus(Some(start), Some(end), now) != AuctionsPage.Live
  {
  }

  /**
   * An event without an end is a draft for the event status, but the bid
   * route reads the missing end as the epoch and refuses every bid after it
   * as ended.
   */
  lemma MissingEndReadsAsEpoch(req: Bids.BidRequest, session: Session, profiles: map<UserId, Profile>,
                               items: map<Bids.ItemId, Bids.Item>, events: map<Bids.EventId, Bids.Event>,
                               bids: seq<Bids.Bid>, readFails: bool, now: int, stored: EventStatus.AuctionStatus)
    requires req.Body? && !Bids.Falsy(req.itemId)
    requires session.Some? && session.value in profiles
    requires !profiles[session.value].banned && profiles[session.value].approved
    requires req.itemId.value in items && items[req.itemId.value].sellerId != Some(session.value)
    requires items[req.itemId.value].eventId.Some? && items[req.itemId.value].eventId.value in events
    requires var e := events[items[req.itemId.value].eventId.value];
      e.endsAt.None? && Bids.DateOf(e.startsAt) <= now && now > 0
    ensures var e := events[items[req.itemId.value].eventId.value];
      && EventStatus.ComputeEventStatus(EventStatus.EventRow(stored, e.startsAt, e.endsAt), now) == EventStatus.Draft
      && Bids.Decide(req, session, profiles, items, events, bids, readFails, now) == Err(Bids.AuctionEnded)
  {
  }
}
