/**
 The transaction history of a coin: the order in which it is stored, the confirmations that are
 shown for it, and its pages.
 */
module TxHistory {
  import opened Wrappers
  import opened Paging

  type Byte = b: nat | b < 256
  type TxId = seq<Byte>

  /** Block 0 stands for a transaction that is not in a block yet; `details` is everything else. */
  datatype Tx = Tx(block: nat, id: TxId, details: nat)

  datatype Ordering = Less | Equal | Greater {
    function Reverse(): Ordering {
      match this
      case Less => Greater
      case Equal => Equal
      case Greater => Less
    }
  }

  // ---------------------------------------------------------------------------------------
  // The order
  // ---------------------------------------------------------------------------------------

  function CompareNumbers(a: nat, b: nat): Ordering {
    if a < b then Less else if a == b then Equal else Greater
  }

  /** Ids are compared byte by byte, and a prefix comes first. */
  function CompareIds(a: TxId, b: TxId): Ordering {
    if a == [] || b == [] then CompareNumbers(|a|, |b|)
    else if a[0] == b[0] then CompareIds(a[1..], b[1..])
    else CompareNumbers(a[0], b[0])
  }

  function CompareTransactions(a: Tx, b: Tx): Ordering {
    if a.block == b.block then CompareIds(a.id, b.id)
    else if a.block == 0 then Less
    else if b.block == 0 then Greater
    else CompareNumbers(b.block, a.block)
  }

  lemma {:induction false} IdsAreOrdered(a: TxId, b: TxId, c: TxId)
    ensures CompareIds(a, b) == Equal <==> a == b
    ensures CompareIds(b, a) == CompareIds(a, b).Reverse()
    ensures CompareIds(a, b) != Greater && CompareIds(b, c) != Greater ==> CompareIds(a, c) != Greater
  {
    if a != [] && b != [] {
      IdsAreOrdered(a[1..], b[1..], if c == [] then c else c[1..]);
      assert a == [a[0]] + a[1..] && b == [b[0]] + b[1..];
    }
  }

  /** The first different byte decides, and a prefix comes first. */
  lemma {:induction false} FirstDifferenceDecides(a: TxId, b: TxId, k: nat)
    requires k <= |a| && k <= |b| && a[..k] == b[..k]
    ensures k < |a| && k < |b| && a[k] < b[k] ==> CompareIds(a, b) == Less
    ensures k == |a| < |b| ==> CompareIds(a, b) == Less
  {
    if k > 0 {
      assert a[0] == a[..k][0] == b[..k][0] == b[0];
      assert a[1..][..k - 1] == a[..k][1..] && b[1..][..k - 1] == b[..k][1..];
      FirstDifferenceDecides(a[1..], b[1..], k - 1);
    }
  }

  /** Unconfirmed transactions come first, then the higher blocks, and in a block the lower id. */
  lemma NewestFirst(a: Tx, b: Tx)
    ensures CompareTransactions(a, b) == Less
       <==> || (a.block == 0 && b.block > 0)
            || (a.block > 0 && b.block > 0 && a.block > b.block)
            || (a.block == b.block && CompareIds(a.id, b.id) == Less)
  {
  }

  /** A total order: equal only in block and id, antisymmetric, transitive. */
  lemma TransactionsAreOrdered(a: Tx, b: Tx, c: Tx)
    ensures CompareTransactions(a, b) == Equal <==> a.block == b.block && a.id == b.id
    ensures CompareTransactions(b, a) == CompareTransactions(a, b).Reverse()
    ensures CompareTransactions(a, b) != Greater && CompareTransactions(b, c) != Greater ==>
              CompareTransactions(a, c) != Greater
  {
    IdsAreOrdered(a.id, b.id, c.id);
  }

  /** The order in which a history is stored. */
  ghost predicate IsSorted(h: seq<Tx>) {
    forall i, j :: 0 <= i < j < |h| ==> CompareTransactions(h[i], h[j]) != Greater
  }

  /** A transaction occurs under its block and id only with the same details. */
  ghost predicate KeysAreUnique(h: seq<Tx>) {
    forall a, b :: a in h && b in h && a.block == b.block && a.id == b.id ==> a == b
  }

  lemma FirstIsLeast(h: seq<Tx>, t: Tx)
    requires IsSorted(h) && t in h
    ensures CompareTransactions(h[0], t) != Greater
  {
    var i :| 0 <= i < |h| && h[i] == t;
    TransactionsAreOrdered(t, t, t);
  }

  lemma WithoutFirst(h: seq<Tx>)
    requires h != [] && IsSorted(h)
    ensures h == [h[0]] + h[1..] && IsSorted(h[1..])
    ensures multiset(h[1..]) == multiset(h) - multiset{h[0]}
  {
    assert h == [h[0]] + h[1..];
  }

  /** However the history is sorted, and whether stably or not, the result is the same. */
  lemma {:induction false} SortingIsUnique(g: seq<Tx>, h: seq<Tx>)
    requires multiset(g) == multiset(h) && KeysAreUnique(g) && IsSorted(g) && IsSorted(h)
    ensures g == h
  {
    assert |g| == |multiset(g)| == |multiset(h)| == |h|;
    if g != [] {
      assert g[0] in multiset(h) && h[0] in multiset(g);
      FirstIsLeast(h, g[0]);
      FirstIsLeast(g, h[0]);
      TransactionsAreOrdered(g[0], h[0], h[0]);
      assert g[0] == h[0];
      WithoutFirst(g);
      WithoutFirst(h);
      SortingIsUnique(g[1..], h[1..]);
    }
  }

  // ---------------------------------------------------------------------------------------
  // Confirmations
  // ---------------------------------------------------------------------------------------

  function Confirmations(current: nat, t: Tx): nat {
    if t.block == 0 then 0 else if current >= t.block then current - t.block + 1 else 0
  }

  /** A transaction has its first confirmation in its own block, and one more with every block after it. */
  lemma ConfirmationsCount(current: nat, t: Tx)
    ensures t.block == 0 || current < t.block ==> Confirmations(current, t) == 0
    ensures t.block > 0 ==> Confirmations(t.block, t) == 1
    ensures t.block > 0 && current >= t.block ==> Confirmations(current + 1, t) == Confirmations(current, t) + 1
  {
  }

  /**
   The order of the blocks is the one in which confirmations ascend, whatever the current block:
   between two transactions of different blocks there is no other.
   */
  lemma ConfirmationsAscendIff(a: Tx, b: Tx)
    ensures (forall current :: Confirmations(current, a) <= Confirmations(current, b))
       <==> a.block == b.block || CompareTransactions(a, b) == Less
  {
    if CompareTransactions(a, b) == Greater && a.block != b.block {
      assert Confirmations(a.block, a) == 1 && Confirmations(a.block, b) == 0;
    }
  }

  /** The confirmations of a sorted history never descend. */
  lemma SortedConfirmationsAscend(h: seq<Tx>, current: nat, i: nat, j: nat)
    requires IsSorted(h) && i < j < |h|
    ensures Confirmations(current, h[i]) <= Confirmations(current, h[j])
  {
    ConfirmationsAscendIff(h[i], h[j]);
    TransactionsAreOrdered(h[i], h[j], h[j]);
  }

  // ---------------------------------------------------------------------------------------
  // Pages
  // ---------------------------------------------------------------------------------------

  datatype Request = Request(fromId: Option<TxId>, max: bool, limit: nat, page: Option<nat>) {
    /** A page number is not zero. */
    predicate Valid() {
      page.Some? ==> page.value >= 1
    }
  }

  datatype Response = Response(transactions: seq<(Tx, nat)>, limit: nat, skipped: nat, total: nat, totalPages: nat)

  function Shown(h: seq<Tx>, current: nat): (r: seq<(Tx, nat)>)
    ensures |r| == |h| && forall i :: 0 <= i < |h| ==> r[i] == (h[i], Confirmations(current, h[i]))
  {
    seq(|h|, i requires 0 <= i < |h| => (h[i], Confirmations(current, h[i])))
  }

  function IdsOf(h: seq<Tx>): (r: seq<TxId>)
    ensures |r| == |h| && forall i :: 0 <= i < |h| ==> r[i] == h[i].id
  {
    seq(|h|, i requires 0 <= i < |h| => h[i].id)
  }

  /** The number of skipped records; the error is the id that is not found. */
  function Skip(h: seq<Tx>, req: Request): Result<nat, TxId>
    requires req.Valid()
  {
    if req.fromId.Some? then
      var position := Position(IdsOf(h), req.fromId.value);
      if position.Some? then Ok(position.value + 1) else Err(req.fromId.value)
    else if req.page.Some? then Ok((req.page.value - 1) * req.limit)
    else Ok(0)
  }

  function MyTxHistory(h: seq<Tx>, current: nat, req: Request): Result<Response, TxId>
    requires req.Valid()
  {
    var limit := if req.max then |h| else req.limit;
    var skip := Skip(h, req);
    if skip.Err? then Err(skip.error)
    else Ok(Response(Shown(Slice(h, skip.value, limit), current), limit, skip.value, |h|, TotalPages(|h|, req.limit)))
  }

  function ByNumber(limit: nat, page: nat): Request
    requires page >= 1
  {
    Request(None, false, limit, Some(page))
  }

  function ById(limit: nat, id: TxId): Request {
    Request(Some(id), false, limit, None)
  }

  lemma ShownSlice(h: seq<Tx>, current: nat, offset: nat, limit: nat)
    ensures Shown(Slice(h, offset, limit), current) == Slice(Shown(h, current), offset, limit)
  {
  }

  /** The transactions of the first k numbered pages. */
  function NumberedPages(h: seq<Tx>, current: nat, limit: nat, k: nat): seq<(Tx, nat)> {
    if k == 0 then []
    else NumberedPages(h, current, limit, k - 1) + Page(h, current, limit, k)
  }

  /** The numbered pages, as many as the response says there are, show the history once and in order. */
  lemma NumberedPagesPartition(h: seq<Tx>, current: nat, limit: nat, req: Request)
    requires limit > 0 && req == ByNumber(limit, 1)
    ensures var r := MyTxHistory(h, current, req);
            r.Ok? && NumberedPages(h, current, limit, r.value.totalPages) == Shown(h, current)
  {
    var k := TotalPages(|h|, limit);
    NumberedPagesAre(h, current, limit, k);
    PagesPartition(Shown(h, current), limit);
  }

  lemma {:induction false} NumberedPagesAre(h: seq<Tx>, current: nat, limit: nat, k: nat)
    ensures NumberedPages(h, current, limit, k) == Pages(Shown(h, current), limit, k)
  {
    if k > 0 {
      var j := k - 1;
      NumberedPagesAre(h, current, limit, j);
      PageShows(h, current, limit, j);
      assert NumberedPages(h, current, limit, k) == NumberedPages(h, current, limit, j) + Page(h, current, limit, k);
    }
  }

  /** The transactions of a numbered page, and of the page after an id. */
  function Page(h: seq<Tx>, current: nat, limit: nat, number: nat): seq<(Tx, nat)>
    requires number >= 1
  {
    MyTxHistory(h, current, ByNumber(limit, number)).value.transactions
  }

  function PageAfter(h: seq<Tx>, current: nat, limit: nat, id: TxId): Option<seq<(Tx, nat)>> {
    var r := MyTxHistory(h, current, ById(limit, id));
    if r.Ok? then Some(r.value.transactions) else None
  }

  lemma PageIs(h: seq<Tx>, current: nat, limit: nat, k: nat)
    ensures Page(h, current, limit, k + 1) == Shown(Slice(h, k * limit, limit), current)
  {
  }

  lemma PageAfterIs(h: seq<Tx>, current: nat, limit: nat, id: TxId, p: nat)
    requires Position(IdsOf(h), id) == Some(p)
    ensures PageAfter(h, current, limit, id) == Some(Shown(Slice(h, p + 1, limit), current))
  {
  }

  function IdOf(shown: (Tx, nat)): TxId {
    shown.0.id
  }

  /** Reading the page after an id. */
  function Reader(h: seq<Tx>, current: nat, limit: nat): TxId -> Option<seq<(Tx, nat)>> {
    id => PageAfter(h, current, limit, id)
  }

  lemma PageAfterAt(h: seq<Tx>, current: nat, limit: nat, p: nat)
    requires AllUnique(IdsOf(h)) && p < |h|
    ensures PageAfter(h, current, limit, h[p].id) == Some(Slice(Shown(h, current), p + 1, limit))
  {
    assert IdsOf(h)[p] == h[p].id;
    UniquePosition(IdsOf(h), p);
    PageAfterIs(h, current, limit, h[p].id, p);
    ShownSlice(h, current, p + 1, limit);
  }

  lemma PagesContinue(h: seq<Tx>, current: nat, limit: nat)
    requires AllUnique(IdsOf(h))
    ensures Continues(Shown(h, current), limit, Reader(h, current, limit), IdOf)
  {
    forall p | 0 <= p < |h|
      ensures PageAfter(h, current, limit, h[p].id) == Some(Slice(Shown(h, current), p + 1, limit)) {
      PageAfterAt(h, current, limit, p);
    }
  }

  lemma PageShows(h: seq<Tx>, current: nat, limit: nat, k: nat)
    ensures Page(h, current, limit, k + 1) == Slice(Shown(h, current), k * limit, limit)
  {
    PageIs(h, current, limit, k);
    ShownSlice(h, current, k * limit, limit);
  }

  lemma SliceByIdIsNextSlice(h: seq<Tx>, current: nat, limit: nat, k: nat, page: seq<(Tx, nat)>)
    requires AllUnique(IdsOf(h)) && page == Slice(Shown(h, current), k * limit, limit) && page != []
    ensures PageAfter(h, current, limit, page[|page| - 1].0.id)
         == Some(Slice(Shown(h, current), (k + 1) * limit, limit))
  {
    var shown := Shown(h, current);
    var p := k * limit + |page| - 1;
    assert page[|page| - 1] == shown[p];
    PageAfterAt(h, current, limit, p);
    NextSlice(shown, limit, k);
  }

  lemma PageAfterSlice(h: seq<Tx>, current: nat, limit: nat, k: nat, page: seq<(Tx, nat)>, next: seq<(Tx, nat)>)
    requires AllUnique(IdsOf(h)) && page != []
    requires page == Slice(Shown(h, current), k * limit, limit)
    requires next == Slice(Shown(h, current), (k + 1) * limit, limit)
    ensures PageAfter(h, current, limit, page[|page| - 1].0.id) == Some(next)
  {
    SliceByIdIsNextSlice(h, current, limit, k, page);
  }

  /** If ids are unique, the page after the last id of page k + 1 is page k + 2. */
  lemma PageByIdIsNextPage(h: seq<Tx>, current: nat, limit: nat, k: nat, page: seq<(Tx, nat)>)
    requires AllUnique(IdsOf(h)) && page == Page(h, current, limit, k + 1) && page != []
    ensures PageAfter(h, current, limit, page[|page| - 1].0.id) == Some(Page(h, current, limit, k + 2))
  {
    PageShows(h, current, limit, k);
    PageShows(h, current, limit, k + 1);
    PageAfterSlice(h, current, limit, k, page, Page(h, current, limit, k + 2));
  }

  lemma ReadingShowsAll(h: seq<Tx>, current: nat, limit: nat, k: nat, first: seq<(Tx, nat)>)
    requires AllUnique(IdsOf(h)) && limit > 0 && first == Slice(Shown(h, current), 0, limit)
    ensures var followed := WalkFrom(Reader(h, current, limit), IdOf, first, k);
            && followed == Pages(Shown(h, current), limit, k + 1)
            && (k + 1 >= TotalPages(|h|, limit) ==> followed == Shown(h, current))
  {
    PagesContinue(h, current, limit);
    WalkIsPages(Shown(h, current), limit, Reader(h, current, limit), IdOf, k);
  }

  /**
   If ids are unique and the limit is positive, the first page and the k pages that follow by the last
   ids are the first k + 1 pages of the history, and show all of it once and in order if they are enough.
   */
  lemma FollowingShowsAll(h: seq<Tx>, current: nat, limit: nat, k: nat)
    requires AllUnique(IdsOf(h)) && limit > 0
    ensures var followed := WalkFrom(Reader(h, current, limit), IdOf, Page(h, current, limit, 1), k);
            && followed == Pages(Shown(h, current), limit, k + 1)
            && (k + 1 >= TotalPages(|h|, limit) ==> followed == Shown(h, current))
  {
    PageShows(h, current, limit, 0);
    ReadingShowsAll(h, current, limit, k, Page(h, current, limit, 1));
  }

  /**
   A response: as many transactions as fit the limit after the skipped ones, in order and with their
   confirmations, and what it says about them.
   */
  lemma ResponseIs(h: seq<Tx>, current: nat, req: Request)
    requires req.Valid() && MyTxHistory(h, current, req).Ok?
    ensures var r := MyTxHistory(h, current, req).value;
            && r.limit == (if req.max then |h| else req.limit) && r.total == |h|
            && (req.fromId.None? ==>
                  r.skipped == if req.page.Some? then (req.page.value - 1) * req.limit else 0)
            && (req.limit > 0 ==> forall k: nat :: k >= r.totalPages <==> k * req.limit >= |h|)
            && (req.limit == 0 ==> r.totalPages == 0)
            && (if r.skipped >= |h| then r.transactions == []
                else if r.skipped + r.limit <= |h| then |r.transactions| == r.limit
                else |r.transactions| == |h| - r.skipped)
            && forall i :: 0 <= i < |r.transactions| ==>
              r.transactions[i] == (h[r.skipped + i], Confirmations(current, h[r.skipped + i]))
  {
    if req.limit > 0 {
      forall k: nat ensures k >= TotalPages(|h|, req.limit) <==> k * req.limit >= |h| {
        TotalPagesIs(|h|, req.limit, k);
      }
    }
  }

  /** A request by id fails exactly when no transaction has the id. */
  lemma UnknownIdFails(h: seq<Tx>, current: nat, id: TxId, req: Request)
    requires req.Valid() && req.fromId == Some(id)
    ensures MyTxHistory(h, current, req).Err? <==> id !in IdsOf(h)
  {
    PositionIs(IdsOf(h), id);
  }

  /** A repeated id sends the reader back: the list goes on from its first occurrence. */
  lemma PageByIdGoesOnIff(h: seq<Tx>, current: nat, limit: nat, p: nat)
    requires p < |h|
    ensures var r := MyTxHistory(h, current, ById(limit, h[p].id));
            r.Ok? && (r.value.skipped == p + 1 <==> h[p].id !in IdsOf(h[..p]))
  {
    var ids := IdsOf(h);
    UniquePosition(ids, p);
    PositionIs(ids, ids[p]);
    assert IdsOf(h[..p]) == ids[..p];
  }
}
