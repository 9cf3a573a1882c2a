/**
 Listing the open lightning channels: sorted by their short ids, filtered, and in pages.

 A filter compares the fields of a channel with its own; here it is a predicate.
 */
module OpenChannels {
  import opened Wrappers
  import opened Paging

  const U64_MAX := 0xFFFF_FFFF_FFFF_FFFF

  type Uuid = nat

  /** `details` is everything the filter may look at. */
  datatype Channel = Channel(uuid: Uuid, shortId: Option<nat>, details: nat) {
    /** A channel without a short id, which is not confirmed yet, counts as the newest. */
    function Key(): nat {
      if shortId.Some? then shortId.value else U64_MAX
    }
  }

  type Filter = Option<Channel -> bool>

  // ---------------------------------------------------------------------------------------
  // Sorting and filtering
  // ---------------------------------------------------------------------------------------

  /** Puts a channel behind those with the same key. */
  function Insert(xs: seq<Channel>, c: Channel): seq<Channel> {
    if xs == [] then [c]
    else if xs[0].Key() < c.Key() then [c] + xs
    else [xs[0]] + Insert(xs[1..], c)
  }

  /** The stable sort by descending keys. */
  function Sort(xs: seq<Channel>): seq<Channel> {
    if xs == [] then [] else Insert(Sort(xs[..|xs| - 1]), xs[|xs| - 1])
  }

  function Select(xs: seq<Channel>, f: Channel -> bool): seq<Channel> {
    if xs == [] then []
    else Select(xs[..|xs| - 1], f) + if f(xs[|xs| - 1]) then [xs[|xs| - 1]] else []
  }

  function Listed(channels: seq<Channel>, filter: Filter): seq<Channel> {
    if filter.Some? then Select(Sort(channels), filter.value) else Sort(channels)
  }

  predicate IsDescending(xs: seq<Channel>) {
    forall i, j :: 0 <= i < j < |xs| ==> xs[i].Key() >= xs[j].Key()
  }

  function UuidsOf(xs: seq<Channel>): (r: seq<Uuid>)
    ensures |r| == |xs| && forall i :: 0 <= i < |xs| ==> r[i] == xs[i].uuid
  {
    seq(|xs|, i requires 0 <= i < |xs| => xs[i].uuid)
  }

  function OfKey(key: nat): Channel -> bool {
    (c: Channel) => c.Key() == key
  }

  lemma {:induction false} SelectAppend(xs: seq<Channel>, ys: seq<Channel>, f: Channel -> bool)
    ensures Select(xs + ys, f) == Select(xs, f) + Select(ys, f)
  {
    if ys == [] {
      assert xs + ys == xs;
    } else {
      var n := |ys| - 1;
      SelectAppend(xs, ys[..n], f);
      assert (xs + ys)[..|xs| + n] == xs + ys[..n];
    }
  }

  lemma {:induction false} SelectNone(xs: seq<Channel>, f: Channel -> bool)
    requires forall c :: c in xs ==> !f(c)
    ensures Select(xs, f) == []
  {
    if xs != [] {
      SelectNone(xs[..|xs| - 1], f);
    }
  }

  lemma {:induction false} InsertHas(xs: seq<Channel>, c: Channel)
    ensures multiset(Insert(xs, c)) == multiset(xs) + multiset{c}
    ensures forall d :: d in Insert(xs, c) <==> d in xs || d == c
  {
    if xs != [] && xs[0].Key() >= c.Key() {
      InsertHas(xs[1..], c);
      assert xs == [xs[0]] + xs[1..];
    }
  }

  lemma {:induction false} InsertIsDescending(xs: seq<Channel>, c: Channel)
    requires IsDescending(xs)
    ensures IsDescending(Insert(xs, c))
  {
    if xs != [] && xs[0].Key() >= c.Key() {
      InsertIsDescending(xs[1..], c);
      InsertHas(xs[1..], c);
      assert forall d :: d in xs[1..] ==> xs[0].Key() >= d.Key();
    }
  }

  /** A channel alone, if it is selected. */
  function One(c: Channel, f: Channel -> bool): seq<Channel> {
    if f(c) then [c] else []
  }

  lemma SelectFirst(c: Channel, xs: seq<Channel>, f: Channel -> bool)
    ensures Select([c] + xs, f) == One(c, f) + Select(xs, f)
  {
    SelectAppend([c], xs, f);
    assert [c][..0] == [];
    assert Select([c], f) == One(c, f);
  }

  lemma SelectLast(c: Channel, xs: seq<Channel>, f: Channel -> bool)
    ensures Select(xs + [c], f) == Select(xs, f) + One(c, f)
  {
    assert (xs + [c])[..|xs|] == xs;
  }

  lemma InsertStep(first: Channel, rest: seq<Channel>, inserted: seq<Channel>, c: Channel, f: Channel -> bool)
    requires Select(inserted, f) == Select(rest, f) + One(c, f)
    ensures Select([first] + inserted, f) == Select([first] + rest, f) + One(c, f)
  {
    SelectFirst(first, inserted, f);
    SelectFirst(first, rest, f);
    assert One(first, f) + (Select(rest, f) + One(c, f)) == (One(first, f) + Select(rest, f)) + One(c, f);
  }

  lemma InsertFirst(xs: seq<Channel>, c: Channel, key: nat)
    requires IsDescending(xs) && xs != [] && xs[0].Key() < c.Key()
    ensures Select([c] + xs, OfKey(key)) == Select(xs, OfKey(key)) + One(c, OfKey(key))
  {
    SelectFirst(c, xs, OfKey(key));
    InsertBefore(xs, c, key);
  }

  lemma {:induction false} InsertIsStable(xs: seq<Channel>, c: Channel, key: nat)
    requires IsDescending(xs)
    ensures Select(Insert(xs, c), OfKey(key)) == Select(xs, OfKey(key)) + One(c, OfKey(key))
  {
    if xs == [] {
      SelectFirst(c, [], OfKey(key));
    } else if xs[0].Key() >= c.Key() {
      InsertIsStable(xs[1..], c, key);
      InsertStep(xs[0], xs[1..], Insert(xs[1..], c), c, OfKey(key));
      assert xs == [xs[0]] + xs[1..];
    } else {
      InsertFirst(xs, c, key);
    }
  }

  /** Channels with lower keys do not have the key of a channel before them. */
  lemma InsertBefore(xs: seq<Channel>, c: Channel, key: nat)
    requires IsDescending(xs) && xs != [] && xs[0].Key() < c.Key()
    ensures One(c, OfKey(key)) + Select(xs, OfKey(key)) == Select(xs, OfKey(key)) + One(c, OfKey(key))
  {
    if c.Key() == key {
      SelectNone(xs, OfKey(key));
    }
  }

  lemma {:induction false} SortHas(xs: seq<Channel>)
    ensures multiset(Sort(xs)) == multiset(xs)
  {
    if xs != [] {
      var n := |xs| - 1;
      var rest := Sort(xs[..n]);
      SortHas(xs[..n]);
      InsertHas(rest, xs[n]);
      assert xs == xs[..n] + [xs[n]];
    }
  }

  lemma {:induction false} SortIsDescending(xs: seq<Channel>)
    ensures IsDescending(Sort(xs))
  {
    if xs != [] {
      var n := |xs| - 1;
      SortIsDescending(xs[..n]);
      InsertIsDescending(Sort(xs[..n]), xs[n]);
    }
  }

  /** Channels of the same key keep their order. */
  lemma {:induction false} SortIsStable(xs: seq<Channel>, key: nat)
    ensures Select(Sort(xs), OfKey(key)) == Select(xs, OfKey(key))
  {
    if xs != [] {
      var n := |xs| - 1;
      SortIsStable(xs[..n], key);
      SortIsDescending(xs[..n]);
      InsertIsStable(Sort(xs[..n]), xs[n], key);
      SelectLast(xs[n], xs[..n], OfKey(key));
      assert xs == xs[..n] + [xs[n]];
    }
  }

  lemma {:induction false} SelectHas(xs: seq<Channel>, f: Channel -> bool, c: Channel)
    ensures multiset(Select(xs, f))[c] == if f(c) then multiset(xs)[c] else 0
  {
    if xs != [] {
      var n := |xs| - 1;
      SelectHas(xs[..n], f, c);
      assert xs == xs[..n] + [xs[n]];
    }
  }

  lemma {:induction false} SelectWithin(xs: seq<Channel>, f: Channel -> bool)
    ensures forall c :: c in Select(xs, f) ==> c in xs
  {
    if xs != [] {
      SelectWithin(xs[..|xs| - 1], f);
    }
  }

  lemma {:induction false} SelectKeepsOrder(xs: seq<Channel>, f: Channel -> bool)
    requires IsDescending(xs)
    ensures IsDescending(Select(xs, f))
  {
    if xs != [] {
      var n := |xs| - 1;
      SelectKeepsOrder(xs[..n], f);
      SelectWithin(xs[..n], f);
      var ys := Select(xs[..n], f);
      forall i | 0 <= i < |ys| ensures ys[i].Key() >= xs[n].Key() {
        assert ys[i] in xs[..n];
      }
    }
  }

  lemma {:induction false} SelectKeepsUuids(xs: seq<Channel>, f: Channel -> bool)
    requires DistinctUuids(xs)
    ensures DistinctUuids(Select(xs, f))
  {
    if xs != [] {
      var n := |xs| - 1;
      SelectKeepsUuids(xs[..n], f);
      SelectWithin(xs[..n], f);
      var ys := Select(xs[..n], f);
      forall i | 0 <= i < |ys| ensures ys[i].uuid != xs[n].uuid {
        assert ys[i] in xs[..n];
      }
    }
  }

  /** Exactly the channels that pass the filter are listed, each as often as it is open, and newest first. */
  lemma ListedIs(channels: seq<Channel>, filter: Filter, c: Channel)
    ensures multiset(Listed(channels, filter))[c]
         == if filter.None? || filter.value(c) then multiset(channels)[c] else 0
    ensures IsDescending(Listed(channels, filter))
  {
    SortHas(channels);
    SortIsDescending(channels);
    if filter.Some? {
      SelectHas(Sort(channels), filter.value, c);
      SelectKeepsOrder(Sort(channels), filter.value);
    }
  }

  predicate DistinctUuids(xs: seq<Channel>) {
    AllUnique(UuidsOf(xs))
  }

  lemma {:induction false} InsertKeepsUuids(xs: seq<Channel>, c: Channel)
    requires DistinctUuids(xs) && forall d :: d in xs ==> d.uuid != c.uuid
    ensures DistinctUuids(Insert(xs, c))
  {
    if xs != [] && xs[0].Key() >= c.Key() {
      InsertKeepsUuids(xs[1..], c);
      InsertHas(xs[1..], c);
      var rest := Insert(xs[1..], c);
      forall i | 0 <= i < |rest| ensures rest[i].uuid != xs[0].uuid {
        assert rest[i] in rest;
      }
    }
  }

  lemma {:induction false} SortKeepsUuids(xs: seq<Channel>)
    requires DistinctUuids(xs)
    ensures DistinctUuids(Sort(xs))
  {
    if xs != [] {
      var n := |xs| - 1;
      SortKeepsUuids(xs[..n]);
      SortHas(xs[..n]);
      forall d | d in Sort(xs[..n]) ensures d.uuid != xs[n].uuid {
        assert d in multiset(xs[..n]);
      }
      InsertKeepsUuids(Sort(xs[..n]), xs[n]);
    }
  }

  lemma ListedKeepsUuids(channels: seq<Channel>, filter: Filter)
    requires DistinctUuids(channels)
    ensures AllUnique(UuidsOf(Listed(channels, filter)))
  {
    SortKeepsUuids(channels);
    if filter.Some? {
      SelectKeepsUuids(Sort(channels), filter.value);
    }
  }

  // ---------------------------------------------------------------------------------------
  // Pages
  // ---------------------------------------------------------------------------------------

  datatype ChannelsPage = ChannelsPage(channels: seq<Channel>, skipped: nat, total: nat)

  /** The first channel of a page; a list without the uuid starts over. */
  function Offset(list: seq<Channel>, paging: Paging<Uuid>, limit: nat): nat
    requires paging.PageNumber? ==> paging.number >= 1
  {
    match paging
    case PageNumber(n) => (n - 1) * limit
    case FromId(uuid) =>
      var p := Position(UuidsOf(list), uuid);
      if p.Some? then p.value + 1 else 0
  }

  /** The page; `None` where the program fails because the page starts behind the end of the list. */
  function PageOf(list: seq<Channel>, paging: Paging<Uuid>, limit: nat): Option<ChannelsPage>
    requires paging.PageNumber? ==> paging.number >= 1
  {
    var offset := Offset(list, paging, limit);
    if offset + limit <= |list| then Some(ChannelsPage(list[offset..offset + limit], offset, |list|))
    else if offset <= |list| then Some(ChannelsPage(list[offset..], offset, |list|))
    else None
  }

  function GetOpenChannelsByFilter(channels: seq<Channel>, filter: Filter, paging: Paging<Uuid>, limit: nat)
    : Option<ChannelsPage>
    requires paging.PageNumber? ==> paging.number >= 1
  {
    PageOf(Listed(channels, filter), paging, limit)
  }

  /** What a page says, and its channels in order. */
  lemma PageIs(list: seq<Channel>, paging: Paging<Uuid>, limit: nat)
    requires paging.PageNumber? ==> paging.number >= 1
    requires PageOf(list, paging, limit).Some?
    ensures var page := PageOf(list, paging, limit).value;
            && page.total == |list|
            && (paging.PageNumber? ==> page.skipped == (paging.number - 1) * limit)
            && (paging.FromId? && paging.id in UuidsOf(list) ==>
                  && 0 < page.skipped <= |list| && list[page.skipped - 1].uuid == paging.id
                  && paging.id !in UuidsOf(list)[..page.skipped - 1])
            && (paging.FromId? && paging.id !in UuidsOf(list) ==> page.skipped == 0)
            && page.skipped + |page.channels| <= |list|
            && |page.channels| == (if page.skipped + limit <= |list| then limit else |list| - page.skipped)
            && forall i :: 0 <= i < |page.channels| ==> page.channels[i] == list[page.skipped + i]
  {
    if paging.FromId? {
      PositionIs(UuidsOf(list), paging.id);
    }
  }

  /** In the list, channels without a short id come first, and then those with the higher ids. */
  lemma NewestFirst(channels: seq<Channel>, filter: Filter, i: nat, j: nat)
    requires var list := Listed(channels, filter); i < j < |list|
    requires forall c :: c in channels && c.shortId.Some? ==> c.shortId.value < 0xFFFF_FFFF_FFFF_FFFF
    ensures var a, b := Listed(channels, filter)[i], Listed(channels, filter)[j];
            a.shortId.None? || (b.shortId.Some? && a.shortId.value >= b.shortId.value)
  {
    var list := Listed(channels, filter);
    ListedIs(channels, filter, list[i]);
    ListedIs(channels, filter, list[j]);
    assert list[i] in multiset(list) && list[j] in multiset(list);
    assert list[i] in multiset(channels) && list[j] in multiset(channels);
  }

  /** A page by number fails exactly when the pages before it would be full and more; a page by uuid never does. */
  lemma PageFailsIff(channels: seq<Channel>, filter: Filter, paging: Paging<Uuid>, limit: nat)
    requires paging.PageNumber? ==> paging.number >= 1
    ensures GetOpenChannelsByFilter(channels, filter, paging, limit).None?
       <==> paging.PageNumber? && (paging.number - 1) * limit > |Listed(channels, filter)|
  {
    if paging.FromId? {
      PositionIs(UuidsOf(Listed(channels, filter)), paging.id);
    }
  }

  lemma NextOffset(list: seq<Channel>, offset: nat, limit: nat)
    requires AllUnique(UuidsOf(list)) && Slice(list, offset, limit) != []
    ensures var channels := Slice(list, offset, limit);
            Offset(list, FromId(channels[|channels| - 1].uuid), limit) == offset + |channels| <= |list|
  {
    var channels, uuids := Slice(list, offset, limit), Slice(UuidsOf(list), offset, limit);
    assert uuids[|uuids| - 1] == channels[|channels| - 1].uuid;
    EndOfPage(UuidsOf(list), offset, limit);
  }

  /** The page at an offset has this paging. */
  ghost predicate StartsAt(list: seq<Channel>, paging: Paging<Uuid>, limit: nat, offset: nat) {
    (paging.PageNumber? ==> paging.number >= 1) && Offset(list, paging, limit) == offset <= |list|
  }

  lemma PageAt(list: seq<Channel>, paging: Paging<Uuid>, limit: nat, offset: nat)
    requires StartsAt(list, paging, limit, offset)
    ensures PageOf(list, paging, limit) == Some(ChannelsPage(Slice(list, offset, limit), offset, |list|))
  {
    assert offset + limit > |list| ==> Slice(list, offset, limit) == list[offset..];
  }

  /** The channels of the page after a uuid, if it does not fail. */
  function ChannelsAfter(list: seq<Channel>, limit: nat, uuid: Uuid): Option<seq<Channel>> {
    var page := PageOf(list, FromId(uuid), limit);
    if page.Some? then Some(page.value.channels) else None
  }

  function Reader(list: seq<Channel>, limit: nat): Uuid -> Option<seq<Channel>> {
    (uuid: Uuid) => ChannelsAfter(list, limit, uuid)
  }

  function UuidOf(c: Channel): Uuid {
    c.uuid
  }

  lemma PagesContinue(list: seq<Channel>, limit: nat)
    requires AllUnique(UuidsOf(list))
    ensures Continues(list, limit, Reader(list, limit), UuidOf)
  {
    forall p | 0 <= p < |list| ensures ChannelsAfter(list, limit, list[p].uuid) == Some(Slice(list, p + 1, limit)) {
      assert UuidsOf(list)[p] == list[p].uuid;
      UniquePosition(UuidsOf(list), p);
      PageAt(list, FromId(list[p].uuid), limit, p + 1);
    }
  }

  /**
   For channels with different uuids, the first page and the k pages that follow it by the last uuids
   never fail, are the numbered pages, and if they are enough list every channel that passes the filter
   exactly once and in order.
   */
  lemma FollowingListsAll(channels: seq<Channel>, filter: Filter, limit: nat, k: nat)
    requires DistinctUuids(channels) && limit > 0
    ensures var list := Listed(channels, filter);
            var first := GetOpenChannelsByFilter(channels, filter, PageNumber(1), limit);
            && first.Some?
            && var followed := WalkFrom(Reader(list, limit), UuidOf, first.value.channels, k);
               && followed == Pages(list, limit, k + 1)
               && (k + 1 >= TotalPages(|list|, limit) ==> followed == list)
  {
    var list := Listed(channels, filter);
    ListedKeepsUuids(channels, filter);
    PageAt(list, PageNumber(1), limit, 0);
    PagesContinue(list, limit);
    WalkIsPages(list, limit, Reader(list, limit), UuidOf, k);
  }

  /** An instance: with one channel and pages of one, the third page fails. */
  lemma PageBehindTheEndFails(c: Channel)
    ensures GetOpenChannelsByFilter([c], None, PageNumber(3), 1) == None
  {
    assert Sort([c]) == Insert(Sort([]), c);
    assert |Listed([c], None)| == 1;
  }

  /** A page by the last uuid of page k + 1 is page k + 2, or empty if there is no such page. */
  lemma PageByUuidIsNextPage(channels: seq<Channel>, filter: Filter, limit: nat, k: nat, page: ChannelsPage)
    requires DistinctUuids(channels)
    requires GetOpenChannelsByFilter(channels, filter, PageNumber(k + 1), limit) == Some(page)
    requires page.channels != []
    ensures var last := page.channels[|page.channels| - 1];
            var next := GetOpenChannelsByFilter(channels, filter, FromId(last.uuid), limit);
            && next.Some?
            && match GetOpenChannelsByFilter(channels, filter, PageNumber(k + 2), limit)
               case Some(numbered) => next.value == numbered
               case None => next.value.channels == []
  {
    var list := Listed(channels, filter);
    ListedKeepsUuids(channels, filter);
    var offset := k * limit;
    PageAt(list, PageNumber(k + 1), limit, offset);
    var end := offset + |page.channels|;
    NextOffset(list, offset, limit);
    PageAt(list, FromId(page.channels[|page.channels| - 1].uuid), limit, end);
    assert (k + 1) * limit == offset + limit;
    assert Offset(list, PageNumber(k + 2), limit) == offset + limit;
    if offset + limit <= |list| {
      PageAt(list, PageNumber(k + 2), limit, end);
    }
  }

  /** A uuid that is not listed starts over. */
  lemma UnknownUuidStartsOver(channels: seq<Channel>, filter: Filter, limit: nat, uuid: Uuid)
    requires uuid !in UuidsOf(Listed(channels, filter))
    ensures GetOpenChannelsByFilter(channels, filter, FromId(uuid), limit)
         == GetOpenChannelsByFilter(channels, filter, PageNumber(1), limit)
  {
    PositionIs(UuidsOf(Listed(channels, filter)), uuid);
  }
}
