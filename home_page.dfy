/**
 * The public homepage: its own copy of `computeStatus` and the loop that
 * splits the events (ordered by `starts_at`) into live, upcoming and ended
 * sections.
 */
module HomePage {
  import opened Wrappers
  import AuctionsPage

  type ListingStatus = AuctionsPage.ListingStatus

  /** An `auction_events` row as the homepage reads it; a null or empty timestamp is None. */
  datatype HomeEvent = HomeEvent(id: string, startsAt: Option<int>, endsAt: Option<int>)

  /** The homepage's `computeStatus`. */
  function ComputeStatus(event: HomeEvent, now: int): ListingStatus {
    if event.startsAt.Some? && now < event.startsAt.value then AuctionsPage.Upcoming
    else if event.startsAt.Some? && event.endsAt.Some? && now >= event.startsAt.value && now <= event.endsAt.value then AuctionsPage.Live
    else if event.endsAt.Some? && now > event.endsAt.value then AuctionsPage.Ended
    else AuctionsPage.Auction
  }

  /** The homepage copy agrees with the auctions page's on every event and instant. */
  lemma SameAsAuctionsPage(event: HomeEvent, now: int)
    ensures ComputeStatus(event, now) == AuctionsPage.ComputeStatus(event.startsAt, event.endsAt, now)
  {
  }

  datatype Section = LiveSection | UpcomingSection | EndedSection

  /** Which list an event is pushed onto: "Live", "Upcoming", and everything else to ended. */
  function SectionOf(status: ListingStatus): Section {
    if status == AuctionsPage.Live then LiveSection
    else if status == AuctionsPage.Upcoming then UpcomingSection
    else EndedSection
  }

  /** The events of one section, in their input order. */
  function Select(events: seq<HomeEvent>, now: int, section: Section): (r: seq<HomeEvent>)
    ensures forall e :: e in r ==> e in events && SectionOf(ComputeStatus(e, now)) == section
  {
    if events == [] then []
    else
      var last := events[|events| - 1];
      Select(events[..|events| - 1], now, section)
        + (if SectionOf(ComputeStatus(last, now)) == section then [last] else [])
  }

  /** `events || []`. */
  function OrEmpty(events: Option<seq<HomeEvent>>): seq<HomeEvent> {
    if events.Some? then events.value else []
  }

  /** The partition loop: each event is pushed onto exactly one of three lists. */
  method Partition(events: Option<seq<HomeEvent>>, now: int)
    returns (live: seq<HomeEvent>, upcoming: seq<HomeEvent>, ended: seq<HomeEvent>)
    ensures live == Select(OrEmpty(events), now, LiveSection)
    ensures upcoming == Select(OrEmpty(events), now, UpcomingSection)
    ensures ended == Select(OrEmpty(events), now, EndedSection)
  {
    var all := OrEmpty(events);
    live, upcoming, ended := [], [], [];
    var i := 0;
    while i < |all|
      invariant 0 <= i <= |all|
      invariant live == Select(all[..i], now, LiveSection)
      invariant upcoming == Select(all[..i], now, UpcomingSection)
      invariant ended == Select(all[..i], now, EndedSection)
    {
      assert all[..i + 1][..i] == all[..i];
      var e := all[i];
      var status := ComputeStatus(e, now);
      if status == AuctionsPage.Live {
        live := live + [e];
      } else if status == AuctionsPage.Upcoming {
        upcoming := upcoming + [e];
      } else {
        ended := ended + [e];
      }
      i := i + 1;
    }
    assert all[..i] == all;
  }

  /** One more event extends exactly the section its status names. */
  lemma SelectLast(events: seq<HomeEvent>, now: int, section: Section)
    requires events != []
    ensures Select(events, now, section)
      == Select(events[..|events| - 1], now, section)
         + if SectionOf(ComputeStatus(events[|events| - 1], now)) == section then [events[|events| - 1]] else []
  {
  }

  /** Appending one event to one of three lists that split `front` splits `front + [x]`. */
  lemma AppendToOneList(front: seq<HomeEvent>, x: HomeEvent, l: seq<HomeEvent>, u: seq<HomeEvent>, e: seq<HomeEvent>,
                        l': seq<HomeEvent>, u': seq<HomeEvent>, e': seq<HomeEvent>)
    requires multiset(l) + multiset(u) + multiset(e) == multiset(front)
    requires || (l' == l + [x] && u' == u && e' == e)
             || (l' == l && u' == u + [x] && e' == e)
             || (l' == l && u' == u && e' == e + [x])
    ensures multiset(l') + multiset(u') + multiset(e') == multiset(front + [x])
  {
    assert multiset(front + [x]) == multiset(front) + multiset{x};
  }

  /** The three sections together hold exactly the input events. */
  lemma {:induction false} SectionsSplitEvents(events: seq<HomeEvent>, now: int)
    ensures multiset(Select(events, now, LiveSection)) + multiset(Select(events, now, UpcomingSection))
            + multiset(Select(events, now, EndedSection)) == multiset(events)
  {
    if events != [] {
      var front := events[..|events| - 1];
      var last := events[|events| - 1];
      assert events == front + [last];
      SectionsSplitEvents(front, now);
      SelectLast(events, now, LiveSection);
      SelectLast(events, now, UpcomingSection);
      SelectLast(events, now, EndedSection);
      var l, u, e := Select(front, now, LiveSection), Select(front, now, UpcomingSection), Select(front, now, EndedSection);
      var l', u', e' := Select(events, now, LiveSection), Select(events, now, UpcomingSection), Select(events, now, EndedSection);
      var section := SectionOf(ComputeStatus(last, now));
      if section == LiveSection {
        assert l' == l + [last] && u' == u && e' == e;
      } else if section == UpcomingSection {
        assert l' == l && u' == u + [last] && e' == e;
      } else {
        assert l' == l && u' == u && e' == e + [last];
      }
      AppendToOneList(front, last, l, u, e, l', u', e');
    }
  }

  /** Every event lands in exactly one section: the three lengths add up to the input's. */
  lemma SectionSizes(events: seq<HomeEvent>, now: int)
    ensures |Select(events, now, LiveSection)| + |Select(events, now, UpcomingSection)|
            + |Select(events, now, EndedSection)| == |events|
  {
    SectionsSplitEvents(events, now);
    var l, u, e := Select(events, now, LiveSection), Select(events, now, UpcomingSection), Select(events, now, EndedSection);
    assert |multiset(l) + multiset(u) + multiset(e)| == |multiset(events)|;
  }

  /** An event lies in the section its status names; "Auction" (times missing) goes to ended. */
  lemma {:induction false} SectionMembership(events: seq<HomeEvent>, now: int, e: HomeEvent, section: Section)
    ensures e in Select(events, now, section) <==> e in events && SectionOf(ComputeStatus(e, now)) == section
    ensures ComputeStatus(e, now) == AuctionsPage.Auction ==>
      (e in events <==> e in Select(events, now, EndedSection))
  {
    if events != [] {
      var front := events[..|events| - 1];
      SectionMembership(front, now, e, section);
      SectionMembership(front, now, e, EndedSection);
      assert events == front + [events[|events| - 1]];
    }
  }

  /** `starts_at` ascending as the query orders it, nulls last. */
  predicate StartsNoLater(a: HomeEvent, b: HomeEvent) {
    b.startsAt.None? || (a.startsAt.Some? && a.startsAt.value <= b.startsAt.value)
  }

  ghost predicate SortedByStart(events: seq<HomeEvent>) {
    forall i, j :: 0 <= i < j < |events| ==> StartsNoLater(events[i], events[j])
  }

  /** Each section keeps the input order, so the query's `starts_at` order survives the split. */
  lemma {:induction false} SectionKeepsOrder(events: seq<HomeEvent>, now: int, section: Section)
    requires SortedByStart(events)
    ensures SortedByStart(Select(events, now, section))
  {
    if events != [] {
      var front := events[..|events| - 1];
      var last := events[|events| - 1];
      assert SortedByStart(front);
      SectionKeepsOrder(front, now, section);
      var s := Select(front, now, section);
      forall i | 0 <= i < |s| ensures StartsNoLater(s[i], last) {
        SectionMembership(front, now, s[i], section);
        var k :| 0 <= k < |front| && front[k] == s[i];
        assert events[k] == s[i];
      }
    }
  }

  /** `AuctionList`: nothing is rendered for an empty list (the page always passes one of its three arrays). */
  function ShowsList(list: seq<HomeEvent>): bool {
    |list| > 0
  }

  /** "No auctions available." appears only for an empty result, not for an absent one. */
  function ShowsNoAuctionsNotice(events: Option<seq<HomeEvent>>): bool {
    events.Some? && |events.value| == 0
  }

  /**
   * Some section is shown exactly when there are events; an empty result
   * shows the notice instead, and an absent result shows neither.
   */
  lemma PageShowsSomething(events: Option<seq<HomeEvent>>, now: int)
    ensures var all := OrEmpty(events);
      var shown := ShowsList(Select(all, now, LiveSection))
        || ShowsList(Select(all, now, UpcomingSection))
        || ShowsList(Select(all, now, EndedSection));
      && (shown <==> |all| > 0)
      && (ShowsNoAuctionsNotice(events) <==> events.Some? && !shown)
      && (events.None? ==> !shown && !ShowsNoAuctionsNotice(events))
  {
    SectionSizes(OrEmpty(events), now);
  }
}
