/**
 * The bid route `POST /api/bids`: an ordered chain of rejections, the
 * current price read from the bid ledger, one inserted bid at the current
 * price plus the table increment, and the soft-close extension of the
 * event's `ends_at`. Times are integer milliseconds since the epoch.
 */
module Bids {
  import opened Wrappers
  import opened Accounts
  import opened BidIncrements

  type ItemId = string
  type EventId = string

  /** A bid within this many milliseconds of the end extends the event. */
  const SOFT_CLOSE_WINDOW_MS: int := 2 * 60 * 1000
  /** How far the end of the event moves on a late bid. */
  const SOFT_CLOSE_EXTENSION_MS: int := 2 * 60 * 1000

  /** A row of `auction_items` as the route reads it. */
  datatype Item = Item(sellerId: Option<UserId>, eventId: Option<EventId>, startingBid: nat)

  /** The two columns of `auction_events` the route reads and writes. */
  datatype Event = Event(startsAt: Option<int>, endsAt: Option<int>)

  /** A row of the append-only `bids` table. */
  datatype Bid = Bid(itemId: ItemId, bidderId: UserId, amount: nat)

  /**
   * The JSON body. `Unparsable` is a body that is not valid JSON or is JSON
   * `null`: parsing or destructuring it throws and the catch answers 500.
   * Any other body is `Body`, with `item_id` None when it is absent or null
   * (a body such as `5` or `[]` has no properties, so it is `Body(None, None)`),
   * and possibly an `amount`, which the route never reads.
   */
  datatype BidRequest = Unparsable | Body(itemId: Option<string>, amount: Option<int>)

  /** Why the route refused; one variant per early return, in source order. */
  datatype Rejection =
    | ServerError
    | MissingItemId
    | NotAuthenticated
    | ProfileNotFound
    | Banned
    | NotApproved
    | ItemNotFound
    | OwnItem
    | NotStarted
    | AuctionEnded
    | InsertFailed
  {
    /** The HTTP status the route answers with. */
    function Status(): int {
      match this
      case ServerError => 500
      case NotAuthenticated => 401
      case ProfileNotFound => 404
      case ItemNotFound => 404
      case Banned => 403
      case NotApproved => 403
      case _ => 400
    }
  }

  /** `new Date(ts)`: a null column reads as the epoch. */
  function DateOf(t: Option<int>): int {
    if t.Some? then t.value else 0
  }

  /** The amounts of the bids on `id`, in insertion order. */
  function Ledger(bids: seq<Bid>, id: ItemId): (l: seq<nat>)
    ensures forall x :: x in l <==> exists b :: b in bids && b.itemId == id && b.amount == x
  {
    if bids == [] then []
    else
      var last := bids[|bids| - 1];
      Ledger(bids[..|bids| - 1], id) + (if last.itemId == id then [last.amount] else [])
  }

  /** The highest amount in a non-empty ledger. */
  function MaxAmount(l: seq<nat>): (m: nat)
    requires |l| > 0
    ensures m in l
    ensures forall x :: x in l ==> x <= m
  {
    if |l| == 1 then l[0]
    else
      var rest := MaxAmount(l[1..]);
      assert forall x :: x in l ==> x == l[0] || x in l[1..];
      if l[0] >= rest then l[0] else rest
  }

  /** The highest bid, or the starting bid while the ledger is empty. */
  function CurrentPrice(l: seq<nat>, startingBid: nat): (p: nat)
    ensures l == [] ==> p == startingBid
    ensures l != [] ==> p in l && forall x :: x in l ==> x <= p
  {
    if l == [] then startingBid else MaxAmount(l)
  }

  /** The new `ends_at` when a bid at `now` lands within the soft-close window of `end`. */
  function SoftClose(end: int, now: int): (r: Option<int>)
    ensures r.Some? <==> end - now <= SOFT_CLOSE_WINDOW_MS
    ensures r.Some? ==> r.value == end + SOFT_CLOSE_EXTENSION_MS
  {
    if end - now <= SOFT_CLOSE_WINDOW_MS then Some(end + SOFT_CLOSE_EXTENSION_MS) else None
  }

  /**
   * The route as written. The client is created without `await`, so
   * `supabase` is a Promise and `supabase.auth.getUser()` throws; the catch
   * answers 500. Only the body checks before that call can answer otherwise.
   */
  function DecideAsWritten(req: BidRequest): (r: Rejection)
    ensures r == MissingItemId <==> req.Body? && Falsy(req.itemId)
    ensures r != MissingItemId ==> r == ServerError
  {
    if req.Body? && Falsy(req.itemId) then MissingItemId else ServerError
  }

  /** What an accepted request writes: one bid, and the event's new end if it is extended. */
  datatype Plan = Plan(bid: Bid, eventId: EventId, extendTo: Option<int>)

  predicate Falsy(s: Option<string>) {
    s.None? || s.value == ""
  }

  /**
   * The decision chain of the route up to, but not including, the insert.
   * `readFails` stands for an error of the latest-bid query: its `data` is
   * then null and the route prices from `starting_bid` as if no bid existed.
   */
  function Decide(req: BidRequest, session: Session, profiles: map<UserId, Profile>,
                  items: map<ItemId, Item>, events: map<EventId, Event>, bids: seq<Bid>,
                  readFails: bool, now: int): (r: Result<Plan, Rejection>)
    ensures r.Ok? ==>
      && req.Body? && req.itemId.Some? && req.itemId.value in items
      && session.Some? && r.value.bid.itemId == req.itemId.value && r.value.bid.bidderId == session.value
      && items[req.itemId.value].eventId == Some(r.value.eventId) && r.value.eventId in events
      && r.value.extendTo == SoftClose(DateOf(events[r.value.eventId].endsAt), now)
    ensures r != Err(InsertFailed)
  {
    match req
    case Unparsable => Err(ServerError)
    case Body(itemId, _) =>
      if Falsy(itemId) then Err(MissingItemId)
      else if session.None? then Err(NotAuthenticated)
      else if session.value !in profiles then Err(ProfileNotFound)
      else if profiles[session.value].banned then Err(Banned)
      else if !profiles[session.value].approved then Err(NotApproved)
      else if itemId.value !in items then Err(ItemNotFound)
      else
        var item := items[itemId.value];
        if item.sellerId == Some(session.value) then Err(OwnItem)
        // `item.event.starts_at` throws when the item has no event; the catch answers 500
        else if item.eventId.None? || item.eventId.value !in events then Err(ServerError)
        else
          var event := events[item.eventId.value];
          var start, end := DateOf(event.startsAt), DateOf(event.endsAt);
          if now < start then Err(NotStarted)
          else if now > end then Err(AuctionEnded)
          else
            var price := if readFails then item.startingBid else CurrentPrice(Ledger(bids, itemId.value), item.startingBid);
            Ok(Plan(Bid(itemId.value, session.value, NextBid(price)), item.eventId.value, SoftClose(end, now)))
  }

  /** The bids on one item form the chain that successive placements build. */
  ghost predicate Chain(l: seq<nat>, startingBid: nat) {
    && (|l| > 0 ==> l[0] == NextBid(startingBid))
    && forall k :: 0 < k < |l| ==> l[k] == NextBid(l[k - 1])
  }

  ghost predicate StrictlyIncreasing(l: seq<nat>) {
    forall i, j :: 0 <= i < j < |l| ==> l[i] < l[j]
  }

  /** No listed item has a bid at or below its starting bid. */
  ghost predicate LedgersAboveStart(items: map<ItemId, Item>, bids: seq<Bid>) {
    forall id, x :: id in items && x in Ledger(bids, id) ==> items[id].startingBid < x
  }

  /** Every listed item's ledger is the chain of placements from its starting bid. */
  ghost predicate LedgersChained(items: map<ItemId, Item>, bids: seq<Bid>) {
    forall id :: id in items ==> Chain(Ledger(bids, id), items[id].startingBid)
  }

  /** The state the route reads and writes: items, events and the bid table. */
  class BidBook {
    var items: map<ItemId, Item>
    var events: map<EventId, Event>
    var bids: seq<Bid>

    /** Holds whatever the queries answer: every bid is above its item's starting bid. */
    ghost predicate Valid()
      reads this
    {
      LedgersAboveStart(items, bids)
    }

    /** Holds as long as every latest-bid query has succeeded. */
    ghost predicate Chained()
      reads this
    {
      LedgersChained(items, bids)
    }

    constructor (items0: map<ItemId, Item>, events0: map<EventId, Event>)
      ensures Valid() && Chained()
      ensures items == items0 && events == events0 && bids == []
    {
      items, events, bids := items0, events0, [];
    }

    /**
     * `POST /api/bids`. `readFails` stands for an error of the latest-bid
     * query, `insertFails` for the insert's `insertError`, and `extendFails`
     * for an `ends_at` update whose error the route ignores.
     */
    method PlaceBid(req: BidRequest, session: Session, profiles: map<UserId, Profile>, now: int,
                    readFails: bool, insertFails: bool, extendFails: bool)
      returns (r: Result<nat, Rejection>)
      requires Valid()
      modifies this
      ensures Valid()
      ensures old(Chained()) && !readFails ==> Chained()
      ensures items == old(items)
      ensures events.Keys == old(events).Keys
      ensures forall e :: e in old(events) ==> DateOf(old(events)[e].endsAt) <= DateOf(events[e].endsAt)
      ensures match Decide(req, session, profiles, old(items), old(events), old(bids), readFails, now)
        case Err(e) =>
          r == Err(e) && bids == old(bids) && events == old(events)
        case Ok(plan) =>
          if insertFails then
            r == Err(InsertFailed) && bids == old(bids) && events == old(events)
          else
            && r == Ok(plan.bid.amount)
            && bids == old(bids) + [plan.bid]
            && events == if plan.extendTo.Some? && !extendFails
                         then old(events)[plan.eventId := old(events)[plan.eventId].(endsAt := plan.extendTo)]
                         else old(events)
    {
      var d := Decide(req, session, profiles, items, events, bids, readFails, now);
      if d.Err? {
        return Err(d.error);
      }
      var plan := d.value;
      if insertFails {
        return Err(InsertFailed);
      }
      PlacementStaysAboveStart(items, bids, plan.bid, req, session, profiles, events, readFails, now);
      PlacementKeepsChains(items, bids, plan.bid, req, session, profiles, events, readFails, now);
      bids := bids + [plan.bid];
      if plan.extendTo.Some? && !extendFails {
        events := events[plan.eventId := events[plan.eventId].(endsAt := plan.extendTo)];
      }
      r := Ok(plan.bid.amount);
    }

    /**
     * `POST /api/bids` as written: it answers before any query, so no bid is
     * inserted and no `ends_at` moves, whatever the request and the state.
     */
    method PlaceBidAsWritten(req: BidRequest) returns (r: Result<nat, Rejection>)
      ensures r == Err(DecideAsWritten(req))
      ensures items == old(items) && events == old(events) && bids == old(bids)
    {
      r := Err(DecideAsWritten(req));
    }
  }

  /**
   * The missing `await`: every request the intended route would act on
   * (plan a bid, or refuse after the session check) gets 500 as written.
   */
  lemma MissingAwaitAnswers500(req: BidRequest, session: Session, profiles: map<UserId, Profile>,
                               items: map<ItemId, Item>, events: map<EventId, Event>, bids: seq<Bid>,
                               readFails: bool, now: int)
    requires Decide(req, session, profiles, items, events, bids, readFails, now) != Err(MissingItemId)
    ensures DecideAsWritten(req) == ServerError && DecideAsWritten(req).Status() == 500
  {
  }

  /** Every rejection is an HTTP error code; only the server error is a 500. */
  lemma StatusCodes()
    ensures forall e: Rejection :: 400 <= e.Status() <= 500
    ensures forall e: Rejection :: e.Status() == 500 <==> e == ServerError
  {
  }

  lemma LedgerAppend(bids: seq<Bid>, b: Bid, id: ItemId)
    ensures Ledger(bids + [b], id) == Ledger(bids, id) + (if b.itemId == id then [b.amount] else [])
  {
    assert (bids + [b])[..|bids|] == bids;
  }

  /** Successive chain amounts strictly increase and all exceed the starting bid. */
  lemma {:induction false} ChainIncreases(l: seq<nat>, startingBid: nat)
    requires Chain(l, startingBid)
    ensures StrictlyIncreasing(l)
    ensures forall k :: 0 <= k < |l| ==> startingBid < l[k]
  {
    if |l| > 0 {
      var front := l[..|l| - 1];
      assert forall k :: 0 <= k < |front| ==> front[k] == l[k];
      ChainIncreases(front, startingBid);
      assert l[|l| - 1] > (if |l| == 1 then startingBid else l[|l| - 2]);
    }
  }

  /** In a strictly increasing ledger the current price is its last bid. */
  lemma PriceIsLastBid(l: seq<nat>, startingBid: nat)
    requires StrictlyIncreasing(l) && l != []
    ensures CurrentPrice(l, startingBid) == l[|l| - 1]
  {
    var p := CurrentPrice(l, startingBid);
    var i :| 0 <= i < |l| && l[i] == p;
    assert l[|l| - 1] in l;
  }

  /**
   * A placement on a chained ledger extends the chain: the new amount is the
   * last bid (or the starting bid) plus that amount's increment.
   */
  lemma PlacementExtendsChain(l: seq<nat>, startingBid: nat)
    requires Chain(l, startingBid)
    ensures Chain(l + [NextBid(CurrentPrice(l, startingBid))], startingBid)
  {
    if l != [] {
      ChainIncreases(l, startingBid);
      PriceIsLastBid(l, startingBid);
    }
  }

  /** A planned insert keeps every ledger a chain, provided the latest-bid query succeeded. */
  lemma PlacementKeepsChains(items: map<ItemId, Item>, bids: seq<Bid>, b: Bid, req: BidRequest, session: Session,
                             profiles: map<UserId, Profile>, events: map<EventId, Event>, readFails: bool, now: int)
    requires Decide(req, session, profiles, items, events, bids, readFails, now).Ok?
    requires b == Decide(req, session, profiles, items, events, bids, readFails, now).value.bid
    ensures LedgersChained(items, bids) && !readFails ==> LedgersChained(items, bids + [b])
  {
    if LedgersChained(items, bids) && !readFails {
      forall id | id in items ensures Chain(Ledger(bids + [b], id), items[id].startingBid) {
        LedgerAppend(bids, b, id);
        if b.itemId == id {
          PlacementExtendsChain(Ledger(bids, id), items[id].startingBid);
        }
      }
    }
  }

  /**
   * A planned insert keeps every bid above its item's starting bid, whether
   * the amount was priced from the ledger or, after a failed latest-bid
   * query, from the starting bid.
   */
  lemma PlacementStaysAboveStart(items: map<ItemId, Item>, bids: seq<Bid>, b: Bid, req: BidRequest, session: Session,
                                 profiles: map<UserId, Profile>, events: map<EventId, Event>, readFails: bool, now: int)
    requires LedgersAboveStart(items, bids)
    requires Decide(req, session, profiles, items, events, bids, readFails, now).Ok?
    requires b == Decide(req, session, profiles, items, events, bids, readFails, now).value.bid
    ensures LedgersAboveStart(items, bids + [b])
  {
    forall id, x | id in items && x in Ledger(bids + [b], id) ensures items[id].startingBid < x {
      LedgerAppend(bids, b, id);
      if x !in Ledger(bids, id) {
        var start := items[id].startingBid;
        var l := Ledger(bids, id);
        assert x == b.amount && b.itemId == id;
        var price := if readFails then start else CurrentPrice(l, start);
        assert b.amount == NextBid(price);
        assert start <= price;
      }
    }
  }

  /**
   * A failed latest-bid query prices from `starting_bid` whatever the ledger
   * holds: on an item that already has bids the inserted amount repeats the
   * first bid, and the ledger stops increasing.
   */
  lemma ReadFailureRepeatsFirstBid(req: BidRequest, session: Session, profiles: map<UserId, Profile>,
                                   items: map<ItemId, Item>, events: map<EventId, Event>, bids: seq<Bid>, now: int)
    requires Decide(req, session, profiles, items, events, bids, true, now).Ok?
    ensures var plan := Decide(req, session, profiles, items, events, bids, true, now).value;
      var id := req.itemId.value;
      var l := Ledger(bids, id);
      && plan.bid.amount == NextBid(items[id].startingBid)
      && (Chain(l, items[id].startingBid) && l != [] ==>
            plan.bid.amount == l[0] && !StrictlyIncreasing(Ledger(bids + [plan.bid], id)))
  {
    var plan := Decide(req, session, profiles, items, events, bids, true, now).value;
    var id := req.itemId.value;
    LedgerAppend(bids, plan.bid, id);
    var l' := Ledger(bids + [plan.bid], id);
    assert l' == Ledger(bids, id) + [plan.bid.amount];
    if Chain(Ledger(bids, id), items[id].startingBid) && Ledger(bids, id) != [] {
      assert l'[0] == l'[|l'| - 1];
    }
  }

  /** Every check of the route passes, so `Decide` plans a bid. */
  ghost predicate Eligible(req: BidRequest, session: Session, profiles: map<UserId, Profile>,
                           items: map<ItemId, Item>, events: map<EventId, Event>, now: int)
  {
    && req.Body? && !Falsy(req.itemId)
    && session.Some? && session.value in profiles
    && !profiles[session.value].banned && profiles[session.value].approved
    && req.itemId.value in items
    && items[req.itemId.value].sellerId != Some(session.value)
    && items[req.itemId.value].eventId.Some? && items[req.itemId.value].eventId.value in events
    && DateOf(events[items[req.itemId.value].eventId.value].startsAt) <= now
    && now <= DateOf(events[items[req.itemId.value].eventId.value].endsAt)
  }

  /**
   * The checks run in source order and the first failing one decides the
   * answer: each rejection holds exactly when every earlier check passed and
   * its own failed, so nothing later (the item, the clock, the ledger) can
   * change an earlier rejection.
   */
  lemma DecisionOrder(req: BidRequest, session: Session, profiles: map<UserId, Profile>,
                      items: map<ItemId, Item>, events: map<EventId, Event>, bids: seq<Bid>,
                      readFails: bool, now: int)
    ensures var r := Decide(req, session, profiles, items, events, bids, readFails, now);
      && (r == Err(MissingItemId) <==> req.Body? && Falsy(req.itemId))
      && (r == Err(NotAuthenticated) <==> req.Body? && !Falsy(req.itemId) && session.None?)
      && (r == Err(ProfileNotFound) <==>
            req.Body? && !Falsy(req.itemId) && session.Some? && session.value !in profiles)
      && (r == Err(Banned) <==>
            req.Body? && !Falsy(req.itemId) && session.Some? && session.value in profiles
            && profiles[session.value].banned)
      && (r == Err(NotApproved) <==>
            req.Body? && !Falsy(req.itemId) && session.Some? && session.value in profiles
            && !profiles[session.value].banned && !profiles[session.value].approved)
      && (r == Err(ItemNotFound) <==>
            req.Body? && !Falsy(req.itemId) && session.Some? && session.value in profiles
            && !profiles[session.value].banned && profiles[session.value].approved
            && req.itemId.value !in items)
      && (r == Err(OwnItem) <==>
            req.Body? && !Falsy(req.itemId) && session.Some? && session.value in profiles
            && !profiles[session.value].banned && profiles[session.value].approved
            && req.itemId.value in items && items[req.itemId.value].sellerId == Some(session.value))
      && (r == Err(ServerError) <==>
            req.Unparsable?
            || (req.Body? && !Falsy(req.itemId) && session.Some? && session.value in profiles
                && !profiles[session.value].banned && profiles[session.value].approved
                && req.itemId.value in items && items[req.itemId.value].sellerId != Some(session.value)
                && (items[req.itemId.value].eventId.None? || items[req.itemId.value].eventId.value !in events)))
      && (r.Ok? <==> Eligible(req, session, profiles, items, events, now))
  {
  }

  /**
   * For a request that passes every check before the clock, bidding is open
   * exactly on the closed interval from `starts_at` to `ends_at`: `now < start`
   * answers NotStarted and `now > end` answers AuctionEnded.
   */
  lemma BiddingWindowInclusive(req: BidRequest, session: Session, profiles: map<UserId, Profile>,
                               items: map<ItemId, Item>, events: map<EventId, Event>, bids: seq<Bid>,
                               readFails: bool, now: int)
    requires req.Body? && !Falsy(req.itemId)
    requires session.Some? && session.value in profiles
    requires !profiles[session.value].banned && profiles[session.value].approved
    requires req.itemId.value in items && items[req.itemId.value].sellerId != Some(session.value)
    requires items[req.itemId.value].eventId.Some? && items[req.itemId.value].eventId.value in events
    ensures var event := events[items[req.itemId.value].eventId.value];
      var start, end := DateOf(event.startsAt), DateOf(event.endsAt);
      var r := Decide(req, session, profiles, items, events, bids, readFails, now);
      && (r.Ok? <==> start <= now <= end)
      && (now < start ==> r == Err(NotStarted))
      && (start <= now && now > end ==> r == Err(AuctionEnded))
  {
  }

  /**
   * The inserted amount is the current price plus its increment. When the
   * latest-bid query succeeds it is above every bid on the item, and for the
   * first bid it is the starting bid plus its increment (never the starting
   * bid itself); after a failed query it is that same first-bid amount. The
   * body's `amount` plays no part.
   */
  lemma AcceptedAmount(req: BidRequest, session: Session, profiles: map<UserId, Profile>,
                       items: map<ItemId, Item>, events: map<EventId, Event>, bids: seq<Bid>,
                       readFails: bool, now: int)
    requires Decide(req, session, profiles, items, events, bids, readFails, now).Ok?
    ensures var plan := Decide(req, session, profiles, items, events, bids, readFails, now).value;
      var id := req.itemId.value;
      var l := Ledger(bids, id);
      var start := items[id].startingBid;
      && plan.bid.itemId == id && plan.bid.bidderId == session.value
      && (!readFails ==> plan.bid.amount == NextBid(CurrentPrice(l, start)))
      && (!readFails ==> forall x :: x in l ==> x < plan.bid.amount)
      && (l == [] || readFails ==> plan.bid.amount == start + GetIncrement(start))
      && (l == [] || readFails ==> plan.bid.amount > start)
      && forall a :: Decide(Body(req.itemId, a), session, profiles, items, events, bids, readFails, now) == Ok(plan)
  {
  }

  /**
   * The route destructures only `item_id` from the body: the `amount` a
   * client sends never changes any answer, accepted or refused.
   */
  lemma AmountIgnored(itemId: Option<string>, a: Option<int>, a2: Option<int>, session: Session,
                      profiles: map<UserId, Profile>, items: map<ItemId, Item>, events: map<EventId, Event>,
                      bids: seq<Bid>, readFails: bool, now: int)
    ensures Decide(Body(itemId, a), session, profiles, items, events, bids, readFails, now)
         == Decide(Body(itemId, a2), session, profiles, items, events, bids, readFails, now)
    ensures DecideAsWritten(Body(itemId, a)) == DecideAsWritten(Body(itemId, a2))
  {
  }

  /**
   * Soft close: a bid with at most two minutes left moves `ends_at` two
   * minutes past the end that was read, so the end never moves backward; one
   * at exactly 120000 ms remaining extends, one at 120001 ms does not.
   */
  lemma {:induction false} SoftCloseBoundary(end: int, now: int)
    ensures SoftClose(end, end - SOFT_CLOSE_WINDOW_MS) == Some(end + 120000)
    ensures SoftClose(end, end - SOFT_CLOSE_WINDOW_MS - 1) == None
    ensures SoftClose(end, now).Some? ==> SoftClose(end, now).value > end
    ensures now <= end ==> (SoftClose(end, now).Some? <==> end - 120000 <= now)
  {
  }
}
