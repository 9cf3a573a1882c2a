/** Pages of a list, by number and by the id of the last element of the page before. */
module Paging {
  import opened Wrappers

  /** The number of a page counts from 1. */
  datatype Paging<Id> = PageNumber(number: nat) | FromId(id: Id)

  function Min(a: nat, b: nat): nat {
    if a <= b then a else b
  }

  /** Skips some elements and takes at most `limit` of the others. */
  function Slice<T>(xs: seq<T>, offset: nat, limit: nat): seq<T> {
    xs[Min(offset, |xs|)..Min(offset + limit, |xs|)]
  }

  function Position<Id(==)>(ids: seq<Id>, id: Id): Option<nat> {
    if ids == [] then None
    else if ids[0] == id then Some(0)
    else
      var rest := Position(ids[1..], id);
      if rest.Some? then Some(rest.value + 1) else None
  }

  lemma {:induction false} PositionIs<Id>(ids: seq<Id>, id: Id)
    ensures match Position(ids, id)
            case None => id !in ids
            case Some(p) => p < |ids| && ids[p] == id && id !in ids[..p]
  {
    if ids != [] && ids[0] != id {
      PositionIs(ids[1..], id);
      var rest := Position(ids[1..], id);
      if rest.Some? {
        assert ids[..rest.value + 1] == [ids[0]] + ids[1..][..rest.value];
      } else {
        assert ids == [ids[0]] + ids[1..];
      }
    }
  }

  // ---------------------------------------------------------------------------------------
  // Pages by number
  // ---------------------------------------------------------------------------------------

  /** The first k pages, one after the other. */
  function Pages<T>(xs: seq<T>, limit: nat, k: nat): seq<T> {
    if k == 0 then [] else Pages(xs, limit, k - 1) + Slice(xs, (k - 1) * limit, limit)
  }

  lemma {:induction false} PagesAre<T>(xs: seq<T>, limit: nat, k: nat)
    ensures Pages(xs, limit, k) == xs[..Min(k * limit, |xs|)]
  {
    if k > 0 {
      PagesAre(xs, limit, k - 1);
      assert k * limit == (k - 1) * limit + limit;
      var a, b := Min((k - 1) * limit, |xs|), Min(k * limit, |xs|);
      assert xs[..a] + xs[a..b] == xs[..b];
    }
  }

  function TotalPages(entries: nat, limit: nat): nat {
    if limit == 0 then 0 else if entries % limit == 0 then entries / limit else entries / limit + 1
  }

  /** The number of pages is the least that covers all entries. */
  lemma TotalPagesIs(entries: nat, limit: nat, k: nat)
    requires limit > 0
    ensures k >= TotalPages(entries, limit) <==> k * limit >= entries
  {
    var q, r := entries / limit, entries % limit;
    assert entries == q * limit + r;
    if k <= q {
      assert q * limit == k * limit + (q - k) * limit;
      assert q == k || (q - k) * limit >= limit by {
        MulAtLeast(q - k, limit);
      }
    } else {
      assert k * limit == q * limit + (k - q) * limit;
      MulAtLeast(k - q, limit);
    }
  }

  lemma MulAtLeast(a: nat, b: nat)
    ensures a >= 1 ==> a * b >= b
  {
    if a >= 1 {
      assert a * b == (a - 1) * b + b;
    }
  }

  /** The pages partition the list. */
  lemma PagesPartition<T>(xs: seq<T>, limit: nat)
    requires limit > 0
    ensures Pages(xs, limit, TotalPages(|xs|, limit)) == xs
  {
    var k := TotalPages(|xs|, limit);
    TotalPagesIs(|xs|, limit, k);
    PagesAre(xs, limit, k);
    assert xs[..|xs|] == xs;
  }

  // ---------------------------------------------------------------------------------------
  // Pages by id
  // ---------------------------------------------------------------------------------------

  /** The list continues after an element with the first occurrence of its id. */
  lemma UniquePosition<Id>(ids: seq<Id>, p: nat)
    requires p < |ids|
    ensures Position(ids, ids[p]) == Some(p) <==> ids[p] !in ids[..p]
  {
    PositionIs(ids, ids[p]);
    assert forall i :: 0 <= i < p ==> ids[..p][i] == ids[i];
  }

  /** The last id of a page is found at the end of the page. */
  lemma EndOfPage<Id>(ids: seq<Id>, offset: nat, limit: nat)
    requires AllUnique(ids) && Slice(ids, offset, limit) != []
    ensures var page := Slice(ids, offset, limit);
            Position(ids, page[|page| - 1]) == Some(offset + |page| - 1) && offset + |page| <= |ids|
  {
    var page := Slice(ids, offset, limit);
    var last := offset + |page| - 1;
    assert page[|page| - 1] == ids[last];
    UniquePosition(ids, last);
  }

  /** Where a page that is not empty ends, the next one starts, or there is none. */
  lemma NextSlice<T>(xs: seq<T>, limit: nat, k: nat)
    requires Slice(xs, k * limit, limit) != []
    ensures Slice(xs, k * limit + |Slice(xs, k * limit, limit)|, limit) == Slice(xs, (k + 1) * limit, limit)
  {
    assert (k + 1) * limit == k * limit + limit;
  }

  /** What follows an offset, in at most k pages, each of which starts where the one before ends. */
  function PagesFrom<T>(xs: seq<T>, offset: nat, limit: nat, k: nat): seq<T>
    decreases k
  {
    if k == 0 then []
    else
      var page := Slice(xs, offset, limit);
      if page == [] then [] else page + PagesFrom(xs, offset + |page|, limit, k - 1)
  }

  /** The number of elements on k full pages. */
  function Full(k: nat, limit: nat): nat {
    if k == 0 then 0 else limit + Full(k - 1, limit)
  }

  lemma {:induction false} FullIs(k: nat, limit: nat)
    ensures Full(k, limit) == k * limit
  {
    if k > 0 {
      FullIs(k - 1, limit);
      assert k * limit == limit + (k - 1) * limit;
    }
  }

  lemma PrefixJoin<T>(xs: seq<T>, offset: nat, limit: nat, rest: seq<T>)
    requires offset <= |xs|
    ensures var page := Slice(xs, offset, limit); xs[..offset] + (page + rest) == xs[..offset + |page|] + rest
  {
    var page := Slice(xs, offset, limit);
    assert xs[..offset] + page == xs[..offset + |page|];
    assert xs[..offset] + (page + rest) == (xs[..offset] + page) + rest;
  }

  lemma {:induction false} PagesFromAre<T>(xs: seq<T>, offset: nat, limit: nat, k: nat)
    requires offset <= |xs| && limit > 0
    ensures xs[..offset] + PagesFrom(xs, offset, limit, k) == xs[..Min(offset + Full(k, limit), |xs|)]
    decreases k
  {
    if k > 0 {
      var page := Slice(xs, offset, limit);
      if page != [] {
        var end := offset + |page|;
        PagesFromAre(xs, end, limit, k - 1);
        PrefixJoin(xs, offset, limit, PagesFrom(xs, end, limit, k - 1));
      }
    }
  }

  /** From the start they are the numbered pages, and the whole list if there are enough of them. */
  lemma PagesFromStart<T>(xs: seq<T>, limit: nat, k: nat, start: nat)
    requires limit > 0 && start == 0
    ensures PagesFrom(xs, start, limit, k) == Pages(xs, limit, k)
    ensures k >= TotalPages(|xs|, limit) ==> Pages(xs, limit, k) == xs
  {
    PagesFromAre(xs, start, limit, k);
    FullIs(k, limit);
    PagesAre(xs, limit, k);
    TotalPagesIs(|xs|, limit, k);
    var found := PagesFrom(xs, start, limit, k);
    assert xs[..start] + found == found;
    assert xs[..|xs|] == xs;
  }

  /** The elements of at most k pages that follow an id, each by the id of the last element of the page before. */
  function Walk<T, Id>(pageAfter: Id -> Option<seq<T>>, idOf: T -> Id, id: Id, k: nat): seq<T>
    decreases k
  {
    if k == 0 then []
    else
      var page := pageAfter(id);
      if page.None? || page.value == [] then []
      else page.value + Walk(pageAfter, idOf, idOf(page.value[|page.value| - 1]), k - 1)
  }

  /** A first page, and at most k pages that follow it. */
  function WalkFrom<T, Id>(pageAfter: Id -> Option<seq<T>>, idOf: T -> Id, first: seq<T>, k: nat): seq<T> {
    if first == [] then [] else first + Walk(pageAfter, idOf, idOf(first[|first| - 1]), k)
  }

  /** The page after the id of any element starts with the next element. */
  ghost predicate Continues<T, Id>(xs: seq<T>, limit: nat, pageAfter: Id -> Option<seq<T>>, idOf: T -> Id) {
    forall p :: 0 <= p < |xs| ==> pageAfter(idOf(xs[p])) == Some(Slice(xs, p + 1, limit))
  }

  lemma {:induction false} WalkIs<T, Id>(xs: seq<T>, limit: nat, pageAfter: Id -> Option<seq<T>>, idOf: T -> Id,
                                         p: nat, k: nat)
    requires Continues(xs, limit, pageAfter, idOf) && p < |xs|
    ensures Walk(pageAfter, idOf, idOf(xs[p]), k) == PagesFrom(xs, p + 1, limit, k)
    decreases k
  {
    if k > 0 {
      var page := Slice(xs, p + 1, limit);
      if page != [] {
        assert page[|page| - 1] == xs[p + |page|];
        WalkIs(xs, limit, pageAfter, idOf, p + |page|, k - 1);
      }
    }
  }

  /** Walking from the first page gives the numbered pages, and the whole list if there are enough of them. */
  lemma WalkIsPages<T, Id>(xs: seq<T>, limit: nat, pageAfter: Id -> Option<seq<T>>, idOf: T -> Id, k: nat)
    requires Continues(xs, limit, pageAfter, idOf) && limit > 0
    ensures WalkFrom(pageAfter, idOf, Slice(xs, 0, limit), k) == Pages(xs, limit, k + 1)
    ensures k + 1 >= TotalPages(|xs|, limit) ==> WalkFrom(pageAfter, idOf, Slice(xs, 0, limit), k) == xs
  {
    WalkFromStart(xs, limit, pageAfter, idOf, k, 0);
    PagesFromStart(xs, limit, k + 1, 0);
  }

  lemma WalkFromStart<T, Id>(xs: seq<T>, limit: nat, pageAfter: Id -> Option<seq<T>>, idOf: T -> Id, k: nat,
                             start: nat)
    requires Continues(xs, limit, pageAfter, idOf) && start == 0
    ensures WalkFrom(pageAfter, idOf, Slice(xs, start, limit), k) == PagesFrom(xs, start, limit, k + 1)
  {
    var first := Slice(xs, start, limit);
    if first != [] {
      var p := |first| - 1;
      assert first[p] == xs[p];
      WalkIs(xs, limit, pageAfter, idOf, p, k);
    }
  }
}
