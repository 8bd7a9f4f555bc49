/**
 * The public auctions page: the status badge of each published event, the
 * item and image shown on its card, its approved-item count and its dates.
 */
module AuctionsPage {
  import opened Wrappers

  /** The badge text of the listing pages. */
  datatype ListingStatus = Upcoming | Live | Ended | Auction

  /** `computeStatus`: a null or empty timestamp is None. */
  function ComputeStatus(startsAt: Option<int>, endsAt: Option<int>, now: int): ListingStatus {
    if startsAt.Some? && now < startsAt.value then Upcoming
    else if startsAt.Some? && endsAt.Some? && now >= startsAt.value && now <= endsAt.value then Live
    else if endsAt.Some? && now > endsAt.value then Ended
    else Auction
  }

  /**
   * Upcoming whenever a start is set and not reached, whatever the end;
   * Live exactly on the closed interval [start, end] with both set; Ended
   * exactly when an end is set and passed and the start (if any) is reached;
   * Auction in every other case, among them both times missing.
   */
  lemma StatusCases(startsAt: Option<int>, endsAt: Option<int>, now: int)
    ensures var r := ComputeStatus(startsAt, endsAt, now);
      && (r == Upcoming <==> startsAt.Some? && now < startsAt.value)
      && (r == Live <==> startsAt.Some? && endsAt.Some? && startsAt.value <= now <= endsAt.value)
      && (r == Ended <==> endsAt.Some? && now > endsAt.value && (startsAt.None? || now >= startsAt.value))
      && (r == Auction <==>
            (startsAt.None? && endsAt.None?)
            || (startsAt.None? && now <= endsAt.value)
            || (endsAt.None? && now >= startsAt.value))
  {
  }

  const APPROVED: string := "approved"

  datatype Image = Image(url: string, isPrimary: bool)

  /** An embedded `auction_items` row: its status and its embedded images (None when absent). */
  datatype ListedItem = ListedItem(status: string, images: Option<seq<Image>>)

  /** `find` over the items from index `from`: the first approved one. */
  function FirstApprovedFrom(items: seq<ListedItem>, from: nat): (r: Option<nat>)
    requires from <= |items|
    decreases |items| - from
    ensures r.Some? ==> from <= r.value < |items| && items[r.value].status == APPROVED
    ensures r.Some? ==> forall j :: from <= j < r.value ==> items[j].status != APPROVED
    ensures r.None? ==> forall j :: from <= j < |items| ==> items[j].status != APPROVED
  {
    if from == |items| then None
    else if items[from].status == APPROVED then Some(from)
    else FirstApprovedFrom(items, from + 1)
  }

  /** The item shown on the card: the first approved one, if the event has any. */
  function FirstApproved(items: Option<seq<ListedItem>>): (r: Option<ListedItem>)
    ensures r.Some? <==> items.Some? && exists j :: 0 <= j < |items.value| && items.value[j].status == APPROVED
    ensures r.Some? ==> r.value.status == APPROVED
    ensures r.Some? ==>
      (exists j :: 0 <= j < |items.value| && items.value[j] == r.value
                   && forall k :: 0 <= k < j ==> items.value[k].status != APPROVED)
  {
    if items.None? then None
    else
      match FirstApprovedFrom(items.value, 0)
      case Some(j) => Some(items.value[j])
      case None => None
  }

  /** The first primary image from index `from`. */
  function FirstPrimaryFrom(images: seq<Image>, from: nat): (r: Option<nat>)
    requires from <= |images|
    decreases |images| - from
    ensures r.Some? ==> from <= r.value < |images| && images[r.value].isPrimary
    ensures r.Some? ==> forall j :: from <= j < r.value ==> !images[j].isPrimary
    ensures r.None? ==> forall j :: from <= j < |images| ==> !images[j].isPrimary
  {
    if from == |images| then None
    else if images[from].isPrimary then Some(from)
    else FirstPrimaryFrom(images, from + 1)
  }

  /** The card image: the item's first primary image, else its first image, else none. */
  function CoverImage(item: Option<ListedItem>): (r: Option<Image>)
    ensures r.Some? <==> item.Some? && item.value.images.Some? && |item.value.images.value| > 0
    ensures r.Some? && r.value.isPrimary ==>
      (exists j :: 0 <= j < |item.value.images.value| && item.value.images.value[j] == r.value
                   && forall k :: 0 <= k < j ==> !item.value.images.value[k].isPrimary)
    ensures r.Some? && !r.value.isPrimary ==>
      r.value == item.value.images.value[0]
      && forall k :: 0 <= k < |item.value.images.value| ==> !item.value.images.value[k].isPrimary
  {
    if item.None? || item.value.images.None? then None
    else
      var images := item.value.images.value;
      match FirstPrimaryFrom(images, 0)
      case Some(j) => Some(images[j])
      case None => if |images| > 0 then Some(images[0]) else None
  }

  /** The number of approved items in a list. */
  function CountApproved(items: seq<ListedItem>): nat {
    if items == [] then 0
    else CountApproved(items[..|items| - 1]) + (if items[|items| - 1].status == APPROVED then 1 else 0)
  }

  /** The card's item count; 0 when the event has no item list. */
  function ApprovedCount(items: Option<seq<ListedItem>>): (r: nat)
    ensures items.None? ==> r == 0
    ensures items.Some? ==> r <= |items.value|
  {
    CountApprovedBound(if items.Some? then items.value else []);
    if items.None? then 0 else CountApproved(items.value)
  }

  lemma {:induction false} CountApprovedBound(items: seq<ListedItem>)
    ensures CountApproved(items) <= |items|
  {
    if items != [] {
      CountApprovedBound(items[..|items| - 1]);
    }
  }

  /** The count is positive exactly when some item is approved. */
  lemma {:induction false} CountPositiveIffSomeApproved(items: seq<ListedItem>)
    ensures CountApproved(items) > 0 <==> exists j :: 0 <= j < |items| && items[j].status == APPROVED
  {
    if items != [] {
      var front := items[..|items| - 1];
      CountPositiveIffSomeApproved(front);
      if exists j :: 0 <= j < |front| && front[j].status == APPROVED {
        var j :| 0 <= j < |front| && front[j].status == APPROVED;
        assert items[j] == front[j];
      }
      if exists j :: 0 <= j < |items| && items[j].status == APPROVED {
        var j :| 0 <= j < |items| && items[j].status == APPROVED;
        if j < |front| { assert front[j] == items[j]; }
      }
    }
  }

  /** A card shows an item exactly when its count is positive. */
  lemma CardItemAgreesWithCount(items: Option<seq<ListedItem>>)
    ensures FirstApproved(items).Some? <==> ApprovedCount(items) > 0
  {
    if items.Some? {
      CountPositiveIffSomeApproved(items.value);
    }
  }

  /** A formatted date: blank, or the locale rendering of a timestamp (left opaque). */
  datatype DateLabel = Blank | Localized(timestamp: string)

  /** `formatDate`: "" for a null or empty timestamp. */
  function FormatDate(d: Option<string>): (r: DateLabel)
    ensures r.Blank? <==> d.None? || d.value == ""
    ensures r.Localized? ==> r.timestamp == d.value
  {
    if d.None? || d.value == "" then Blank else Localized(d.value)
  }
}
