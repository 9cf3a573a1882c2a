/**
 HD wallet address discovery: the gap-limit scanner, the code that tops an account up to a
 minimum number of addresses, and the code that enables a whole wallet.

 The node and the wallet storage are oracles. Deriving an address is injective in
 (account, chain, address id), so an address is represented by that triple.
 */
module HdWallet {
  import opened Wrappers

  datatype Chain = External | Internal

  datatype Balance = Balance(spendable: real, unspendable: real) {
    function Add(other: Balance): Balance {
      Balance(spendable + other.spendable, unspendable + other.unspendable)
    }
  }

  const ZERO_BALANCE := Balance(0.0, 0.0)

  datatype AddressBalance = AddressBalance(account: nat, chain: Chain, id: nat, balance: Balance)

  datatype AccountBalance = AccountBalance(account: nat, total: Balance, addresses: seq<AddressBalance>)

  datatype HdError =
    | BalanceError | StorageError | AddressLimitReached | AccountLimitReached | AccountExists | ExtractionError

  /** How many addresses of each chain an account knows. */
  datatype Counts = Counts(external: nat, internal: nat) {
    function Of(chain: Chain): nat {
      match chain
      case External => external
      case Internal => internal
    }

    function With(chain: Chain, n: nat): Counts {
      match chain
      case External => this.(external := n)
      case Internal => this.(internal := n)
    }
  }

  /**
   What the node and the storage answer about one account. `used` and `balance` are `None` when
   the request fails; `saves` says whether storing a new number of known addresses succeeds.
   */
  datatype Oracle = Oracle(
    used: (Chain, nat) -> Option<bool>,
    balance: (Chain, nat) -> Option<Balance>,
    saves: (Chain, nat) -> bool)
  {
    /** The address has a transaction history. */
    predicate IsUsed(chain: Chain, id: nat) {
      used(chain, id) == Some(true)
    }

    /** Checking the address gets an answer: its history, and its balance if it was used. */
    predicate Answers(chain: Chain, id: nat) {
      used(chain, id).Some? && (IsUsed(chain, id) ==> balance(chain, id).Some?)
    }
  }

  function Min(a: int, b: int): int { if a <= b then a else b }

  function Max(a: int, b: int): int { if a >= b then a else b }

  // ---------------------------------------------------------------------------------------
  // What discovery means
  // ---------------------------------------------------------------------------------------

  /** No address with an id in k, ..., k + gapLimit that the account may hold has been used. */
  predicate Quiet(o: Oracle, chain: Chain, k: nat, gapLimit: nat, limit: nat) {
    forall id: nat :: k <= id < Min(k + gapLimit + 1, limit) ==> !o.IsUsed(chain, id)
  }

  /** The least quiet id that is not below `start`. */
  function Discovered(o: Oracle, chain: Chain, start: nat, gapLimit: nat, limit: nat): (k: nat)
    ensures start <= k
    ensures Quiet(o, chain, k, gapLimit, limit)
    ensures forall j: nat :: start <= j < k ==> !Quiet(o, chain, j, gapLimit, limit)
    ensures start < k ==> k <= limit && o.IsUsed(chain, k - 1)
    decreases limit - start
  {
    if Quiet(o, chain, start, gapLimit, limit) then start
    else Discovered(o, chain, start + 1, gapLimit, limit)
  }

  lemma LeastQuietIsDiscovered(o: Oracle, chain: Chain, start: nat, gapLimit: nat, limit: nat, k: nat)
    requires start <= k && Quiet(o, chain, k, gapLimit, limit)
    requires forall j: nat :: start <= j < k ==> !Quiet(o, chain, j, gapLimit, limit)
    ensures k == Discovered(o, chain, start, gapLimit, limit)
  {
    var d := Discovered(o, chain, start, gapLimit, limit);
    assert !(d < k) && !(k < d);
  }

  /** The end of the range of ids a scan looks at. */
  function ScanEnd(o: Oracle, chain: Chain, start: nat, gapLimit: nat, limit: nat): int {
    Min(Discovered(o, chain, start, gapLimit, limit) + gapLimit + 1, limit)
  }

  /** A listing that runs through ids lo, ..., hi - 1 of one chain. */
  predicate IsRun(list: seq<AddressBalance>, chain: Chain, lo: nat, hi: nat) {
    && lo <= hi
    && |list| == hi - lo
    && forall i :: 0 <= i < |list| ==> list[i].chain == chain && list[i].id == lo + i
  }

  /** A scan reports the true balance of a used address and zero for an unused one. */
  function FoundBalance(o: Oracle, chain: Chain, id: nat): Balance {
    if o.IsUsed(chain, id) && o.balance(chain, id).Some? then o.balance(chain, id).value else ZERO_BALANCE
  }

  /** The scan entries of ids lo, ..., hi - 1, in order. */
  function ScanListing(o: Oracle, account: nat, chain: Chain, lo: nat, hi: nat): (list: seq<AddressBalance>)
    requires lo <= hi
    ensures IsRun(list, chain, lo, hi)
  {
    seq(hi - lo, i requires 0 <= i < hi - lo =>
      AddressBalance(account, chain, lo + i, FoundBalance(o, chain, lo + i)))
  }

  /** Zero balances for ids lo, ..., hi - 1. */
  function EmptyListing(account: nat, chain: Chain, lo: nat, hi: nat): seq<AddressBalance>
    requires lo <= hi
  {
    seq(hi - lo, i requires 0 <= i < hi - lo => AddressBalance(account, chain, lo + i, ZERO_BALANCE))
  }

  /** A run of unused ids followed by a used one extends a listing by zeros and a true balance. */
  lemma ExtendListing(o: Oracle, account: nat, chain: Chain, lo: nat, mid: nat, hi: nat)
    requires lo <= mid <= hi
    requires forall id: nat :: mid <= id < hi ==> !o.IsUsed(chain, id)
    requires o.IsUsed(chain, hi) && o.balance(chain, hi).Some?
    ensures ScanListing(o, account, chain, lo, hi + 1)
         == ScanListing(o, account, chain, lo, mid) + EmptyListing(account, chain, mid, hi)
            + [AddressBalance(account, chain, hi, o.balance(chain, hi).value)]
  {
    var whole := ScanListing(o, account, chain, lo, hi + 1);
    var found := ScanListing(o, account, chain, lo, mid);
    var empty := EmptyListing(account, chain, mid, hi);
    var last := AddressBalance(account, chain, hi, o.balance(chain, hi).value);
    forall i | 0 <= i < |whole| ensures whole[i] == (found + empty + [last])[i] {
      if i < mid - lo {
        assert (found + empty + [last])[i] == found[i];
      } else if i < hi - lo {
        assert FoundBalance(o, chain, lo + i) == ZERO_BALANCE;
        assert (found + empty + [last])[i] == empty[i - (mid - lo)];
        assert mid + (i - (mid - lo)) == lo + i;
      } else {
        assert FoundBalance(o, chain, lo + i) == last.balance;
        assert (found + empty + [last])[i] == last;
      }
    }
  }

  /** A used id ends the quiet of every id it is reachable from within the gap limit. */
  lemma UsedBreaksQuiet(o: Oracle, chain: Chain, lo: nat, id: nat, gapLimit: nat, limit: nat)
    requires lo <= id <= lo + gapLimit && id < limit
    requires o.IsUsed(chain, id)
    ensures forall j: nat :: lo <= j <= id ==> !Quiet(o, chain, j, gapLimit, limit)
  {
  }

  /** The specification of one scan: the counts it leaves behind and what it returns. */
  function ScanSpec(o: Oracle, account: nat, limit: nat, c: Counts, chain: Chain, gapLimit: nat)
    : (Counts, Result<seq<AddressBalance>, HdError>)
  {
    var start := c.Of(chain);
    var k := Discovered(o, chain, start, gapLimit, limit);
    if exists id: nat :: start <= id < ScanEnd(o, chain, start, gapLimit, limit) && !o.Answers(chain, id)
      then (c, Err(BalanceError))
    else if limit <= k then (c, Err(AddressLimitReached))
    else if !o.saves(chain, k) then (c, Err(StorageError))
    else (c.With(chain, k), Ok(ScanListing(o, account, chain, start, k)))
  }

  /** What a scan that has reached `checking` with `unused` unused ids behind it has established. */
  ghost predicate Scanning(o: Oracle, chain: Chain, start: nat, gapLimit: nat, limit: nat, checking: nat, unused: nat)
  {
    && start <= checking - unused
    && unused <= gapLimit + 1
    && checking <= Max(start, limit)
    && (forall id: nat :: start <= id < checking ==> o.Answers(chain, id))
    && (forall id: nat :: checking - unused <= id < checking ==> !o.IsUsed(chain, id))
    && (forall j: nat :: start <= j < checking - unused ==> !Quiet(o, chain, j, gapLimit, limit))
  }

  lemma ScanSeesUsed(o: Oracle, chain: Chain, start: nat, gapLimit: nat, limit: nat, checking: nat, unused: nat)
    requires Scanning(o, chain, start, gapLimit, limit, checking, unused)
    requires checking < limit && unused <= gapLimit
    requires o.Answers(chain, checking) && o.IsUsed(chain, checking)
    ensures Scanning(o, chain, start, gapLimit, limit, checking + 1, 0)
  {
    UsedBreaksQuiet(o, chain, checking - unused, checking, gapLimit, limit);
  }

  lemma ScanSeesUnused(o: Oracle, chain: Chain, start: nat, gapLimit: nat, limit: nat, checking: nat, unused: nat)
    requires Scanning(o, chain, start, gapLimit, limit, checking, unused)
    requires checking < limit && unused <= gapLimit
    requires o.Answers(chain, checking) && !o.IsUsed(chain, checking)
    ensures Scanning(o, chain, start, gapLimit, limit, checking + 1, unused + 1)
  {
  }

  lemma ScanStops(o: Oracle, account: nat, limit: nat, c: Counts, chain: Chain, gapLimit: nat, checking: nat,
                  unused: nat)
    requires Scanning(o, chain, c.Of(chain), gapLimit, limit, checking, unused)
    requires limit <= checking || gapLimit < unused
    ensures var k := checking - unused;
            ScanSpec(o, account, limit, c, chain, gapLimit)
            == if limit <= k then (c, Err(AddressLimitReached))
               else if !o.saves(chain, k) then (c, Err(StorageError))
               else (c.With(chain, k), Ok(ScanListing(o, account, chain, c.Of(chain), k)))
  {
    LeastQuietIsDiscovered(o, chain, c.Of(chain), gapLimit, limit, checking - unused);
  }

  lemma ScanFails(o: Oracle, account: nat, limit: nat, c: Counts, chain: Chain, gapLimit: nat, checking: nat,
                  unused: nat)
    requires Scanning(o, chain, c.Of(chain), gapLimit, limit, checking, unused)
    requires checking < limit && unused <= gapLimit
    requires !o.Answers(chain, checking)
    ensures ScanSpec(o, account, limit, c, chain, gapLimit) == (c, Err(BalanceError))
  {
    assert !(Discovered(o, chain, c.Of(chain), gapLimit, limit) < checking - unused);
  }

  /** Every address from start to the end of the gap after k is answered for, and every used one has a balance. */
  ghost predicate IsAnswered(o: Oracle, chain: Chain, start: nat, k: nat, gapLimit: nat, limit: nat) {
    forall id: nat :: start <= id <= k + gapLimit && id < limit ==>
      o.used(chain, id).Some? && (o.used(chain, id) == Some(true) ==> o.balance(chain, id).Some?)
  }

  /** When a scan succeeds, and the first thing that goes wrong when it does not. */
  lemma ScanOutcome(o: Oracle, account: nat, limit: nat, c: Counts, chain: Chain, gapLimit: nat)
    ensures var k := Discovered(o, chain, c.Of(chain), gapLimit, limit);
            var (c1, r) := ScanSpec(o, account, limit, c, chain, gapLimit);
            var answered := IsAnswered(o, chain, c.Of(chain), k, gapLimit, limit);
            && (r.Ok? <==> answered && k < limit && o.saves(chain, k))
            && (r.Err? ==> r.error == if !answered then BalanceError
                                      else if limit <= k then AddressLimitReached else StorageError)
            && c1 == match chain
                     case External => Counts(if r.Ok? then k else c.external, c.internal)
                     case Internal => Counts(c.external, if r.Ok? then k else c.internal)
  {
    AnsweredIff(o, chain, c.Of(chain), gapLimit, limit);
  }

  lemma AnsweredIff(o: Oracle, chain: Chain, start: nat, gapLimit: nat, limit: nat)
    ensures IsAnswered(o, chain, start, Discovered(o, chain, start, gapLimit, limit), gapLimit, limit)
       <==> forall id: nat :: start <= id < ScanEnd(o, chain, start, gapLimit, limit) ==> o.Answers(chain, id)
  {
    var end := ScanEnd(o, chain, start, gapLimit, limit);
    if IsAnswered(o, chain, start, Discovered(o, chain, start, gapLimit, limit), gapLimit, limit) {
      forall id: nat | start <= id < end ensures o.Answers(chain, id) {
        assert o.used(chain, id).Some?;
      }
    } else if forall id: nat :: start <= id < end ==> o.Answers(chain, id) {
      forall id: nat | start <= id < end
        ensures o.used(chain, id).Some? && (o.used(chain, id) == Some(true) ==> o.balance(chain, id).Some?)
      {
        assert o.Answers(chain, id);
      }
    }
  }

  /** A scan that follows a successful one finds nothing and changes nothing. */
  lemma ScanIsIdempotent(o: Oracle, account: nat, limit: nat, c: Counts, chain: Chain, gapLimit: nat)
    ensures var (c1, r) := ScanSpec(o, account, limit, c, chain, gapLimit);
            && c.Of(chain) <= c1.Of(chain)
            && (r.Err? ==> c1 == c)
            && (r.Ok? ==> ScanSpec(o, account, limit, c1, chain, gapLimit) == (c1, Ok([])))
  {
    var (c1, r) := ScanSpec(o, account, limit, c, chain, gapLimit);
    if r.Ok? {
      var k := c1.Of(chain);
      assert Discovered(o, chain, k, gapLimit, limit) == k;
      assert forall id: nat :: k <= id < ScanEnd(o, chain, k, gapLimit, limit) ==> o.Answers(chain, id);
      assert c1.With(chain, k) == c1;
      assert ScanListing(o, account, chain, k, k) == [];
    }
  }

  /**
   Address discovery as BIP 44 describes it, without mentioning a counter: used addresses, the
   first within the gap limit of the first unknown id, each next one within the gap limit of the
   one before.
   */
  predicate DiscoveryPath(o: Oracle, chain: Chain, start: nat, gapLimit: nat, limit: nat, path: seq<nat>) {
    && path != []
    && start <= path[0] <= start + gapLimit
    && (forall i :: 0 <= i < |path| ==> path[i] < limit && o.IsUsed(chain, path[i]))
    && (forall i :: 0 < i < |path| ==> path[i - 1] < path[i] <= path[i - 1] + 1 + gapLimit)
  }

  lemma {:induction false} PathIsFound(o: Oracle, chain: Chain, start: nat, gapLimit: nat, limit: nat, path: seq<nat>)
    requires DiscoveryPath(o, chain, start, gapLimit, limit, path)
    ensures start <= path[|path| - 1] < Discovered(o, chain, start, gapLimit, limit)
  {
    if |path| > 1 {
      PathIsFound(o, chain, start, gapLimit, limit, path[..|path| - 1]);
    }
  }

  lemma PathExtends(o: Oracle, chain: Chain, start: nat, gapLimit: nat, limit: nat, path: seq<nat>, id: nat)
    requires DiscoveryPath(o, chain, start, gapLimit, limit, path)
    requires path[|path| - 1] < id <= path[|path| - 1] + 1 + gapLimit
    requires o.IsUsed(chain, id) && id < limit
    ensures DiscoveryPath(o, chain, start, gapLimit, limit, path + [id])
  {
    var longer := path + [id];
    assert longer[|path|] == id && forall i :: 0 <= i < |path| ==> longer[i] == path[i];
  }

  /** A used id that is found has a used id within the gap limit before it, or lies within it itself. */
  lemma UsedBefore(o: Oracle, chain: Chain, start: nat, gapLimit: nat, limit: nat, id: nat) returns (v: nat)
    requires start + gapLimit < id < Discovered(o, chain, start, gapLimit, limit)
    ensures start <= v < id <= v + 1 + gapLimit && v < limit && o.IsUsed(chain, v)
  {
    assert !Quiet(o, chain, id - gapLimit - 1, gapLimit, limit);
    v :| id - gapLimit - 1 <= v < Min(id, limit) && o.IsUsed(chain, v);
  }

  lemma {:induction false} PathTo(o: Oracle, chain: Chain, start: nat, gapLimit: nat, limit: nat, id: nat)
    returns (path: seq<nat>)
    requires start <= id < Discovered(o, chain, start, gapLimit, limit)
    requires o.IsUsed(chain, id) && id < limit
    ensures DiscoveryPath(o, chain, start, gapLimit, limit, path)
    ensures path[|path| - 1] == id
  {
    if id <= start + gapLimit {
      path := [id];
    } else {
      var v := UsedBefore(o, chain, start, gapLimit, limit, id);
      path := PathTo(o, chain, start, gapLimit, limit, v);
      PathExtends(o, chain, start, gapLimit, limit, path, id);
      path := path + [id];
    }
  }

  /** The scanner finds exactly the used addresses that a discovery path leads to. */
  lemma ScanFindsExactlyReachable(o: Oracle, chain: Chain, start: nat, gapLimit: nat, limit: nat, id: nat)
    requires start <= id < limit && o.IsUsed(chain, id)
    ensures id < Discovered(o, chain, start, gapLimit, limit)
        <==> exists path :: DiscoveryPath(o, chain, start, gapLimit, limit, path) && path[|path| - 1] == id
  {
    if id < Discovered(o, chain, start, gapLimit, limit) {
      var path := PathTo(o, chain, start, gapLimit, limit, id);
    }
    forall path | DiscoveryPath(o, chain, start, gapLimit, limit, path)
      ensures path[|path| - 1] < Discovered(o, chain, start, gapLimit, limit)
    {
      PathIsFound(o, chain, start, gapLimit, limit, path);
    }
  }

  // ---------------------------------------------------------------------------------------
  // What a listing of addresses contains
  // ---------------------------------------------------------------------------------------

  /** An EVM coin keeps its addresses on the external chain, a UTXO coin on both. */
  datatype CoinKind = Evm | Utxo

  function Chains(kind: CoinKind): seq<Chain> {
    match kind
    case Evm => [External]
    case Utxo => [External, Internal]
  }

  /** How many addresses a listing of everything known has. */
  function ListedCount(kind: CoinKind, c: Counts): nat {
    match kind
    case Evm => c.external
    case Utxo => c.external + c.internal
  }

  /** True balances of ids lo, ..., hi - 1. */
  function TrueListing(o: Oracle, account: nat, chain: Chain, lo: nat, hi: nat): (list: seq<AddressBalance>)
    requires lo <= hi
    requires forall id: nat :: lo <= id < hi ==> o.balance(chain, id).Some?
    ensures IsRun(list, chain, lo, hi)
  {
    seq(hi - lo, i requires 0 <= i < hi - lo => AddressBalance(account, chain, lo + i, o.balance(chain, lo + i).value))
  }

  function Range(lo: nat, hi: nat): seq<nat>
    requires lo <= hi
  {
    seq(hi - lo, i requires 0 <= i => lo + i)
  }

  /** The ids a listing shows on one chain, in the order in which they are listed. */
  function IdsOn(list: seq<AddressBalance>, chain: Chain): seq<nat> {
    if list == [] then []
    else (if list[0].chain == chain then [list[0].id] else []) + IdsOn(list[1..], chain)
  }

  lemma {:induction false} IdsOnConcat(a: seq<AddressBalance>, b: seq<AddressBalance>, chain: Chain)
    ensures IdsOn(a + b, chain) == IdsOn(a, chain) + IdsOn(b, chain)
  {
    if a == [] {
      assert a + b == b;
    } else {
      assert (a + b)[1..] == a[1..] + b;
      IdsOnConcat(a[1..], b, chain);
      var first := if a[0].chain == chain then [a[0].id] else [];
      assert first + (IdsOn(a[1..], chain) + IdsOn(b, chain)) == (first + IdsOn(a[1..], chain)) + IdsOn(b, chain);
    }
  }

  lemma {:induction false} IdsOnRun(list: seq<AddressBalance>, at: Chain, lo: nat, hi: nat, chain: Chain)
    requires IsRun(list, at, lo, hi)
    ensures IdsOn(list, chain) == if chain == at then Range(lo, hi) else []
    decreases |list|
  {
    if list != [] {
      IdsOnRun(list[1..], at, lo + 1, hi, chain);
      assert Range(lo, hi) == [lo] + Range(lo + 1, hi);
    }
  }

  /** Where a coin's listing of a chain starts: at 0 where it keeps addresses, else at what it knew. */
  function Base(kind: CoinKind, c: Counts): Counts {
    if kind == Evm then Counts(0, c.internal) else Counts(0, 0)
  }

  /** The listing runs through ids base, ..., c - 1 of every chain, without gaps or repeats. */
  ghost predicate Listed(base: Counts, c: Counts, list: seq<AddressBalance>) {
    && base.external <= c.external && IdsOn(list, External) == Range(base.external, c.external)
    && base.internal <= c.internal && IdsOn(list, Internal) == Range(base.internal, c.internal)
    && |list| == c.external - base.external + c.internal - base.internal
  }

  function Other(chain: Chain): Chain {
    if chain == External then Internal else External
  }

  lemma RangeJoin(lo: nat, mid: nat, hi: nat)
    requires lo <= mid <= hi
    ensures Range(lo, mid) + Range(mid, hi) == Range(lo, hi)
  {
  }

  lemma AppendRun(list: seq<AddressBalance>, run: seq<AddressBalance>, at: Chain, lo: nat, mid: nat, hi: nat)
    requires lo <= mid && IsRun(run, at, mid, hi)
    requires IdsOn(list, at) == Range(lo, mid)
    ensures IdsOn(list + run, at) == Range(lo, hi)
    ensures IdsOn(list + run, Other(at)) == IdsOn(list, Other(at))
  {
    IdsOnConcat(list, run, at);
    IdsOnRun(run, at, mid, hi, at);
    RangeJoin(lo, mid, hi);
    var others := IdsOn(list, Other(at));
    IdsOnConcat(list, run, Other(at));
    IdsOnRun(run, at, mid, hi, Other(at));
    assert others + [] == others;
  }

  lemma ListedExtends(base: Counts, c: Counts, list: seq<AddressBalance>, at: Chain, hi: nat, run: seq<AddressBalance>)
    requires Listed(base, c, list)
    requires IsRun(run, at, c.Of(at), hi)
    ensures Listed(base, c.With(at, hi), list + run)
  {
    AppendRun(list, run, at, base.Of(at), c.Of(at), hi);
  }

  /** The total of a listing, accumulated from left to right. */
  function SumBalances(list: seq<AddressBalance>): Balance {
    if list == [] then ZERO_BALANCE
    else SumBalances(list[..|list| - 1]).Add(list[|list| - 1].balance)
  }

  /** The sum of some amounts. */
  function SumOf(xs: seq<real>): real {
    if xs == [] then 0.0 else SumOf(xs[..|xs| - 1]) + xs[|xs| - 1]
  }

  function Spendables(list: seq<AddressBalance>): (r: seq<real>)
    ensures |r| == |list| && forall i :: 0 <= i < |r| ==> r[i] == list[i].balance.spendable
  {
    seq(|list|, i requires 0 <= i < |list| => list[i].balance.spendable)
  }

  function Unspendables(list: seq<AddressBalance>): (r: seq<real>)
    ensures |r| == |list| && forall i :: 0 <= i < |r| ==> r[i] == list[i].balance.unspendable
  {
    seq(|list|, i requires 0 <= i < |list| => list[i].balance.unspendable)
  }

  /** The total is that of the spendable and of the unspendable parts. */
  predicate IsTotal(list: seq<AddressBalance>, total: Balance) {
    total.spendable == SumOf(Spendables(list)) && total.unspendable == SumOf(Unspendables(list))
  }

  /** Adding up balances adds up both of their parts. */
  lemma {:induction false} SumBalancesIsTotal(list: seq<AddressBalance>)
    ensures IsTotal(list, SumBalances(list))
  {
    if list != [] {
      var n := |list| - 1;
      SumBalancesIsTotal(list[..n]);
      assert Spendables(list)[..n] == Spendables(list[..n]);
      assert Unspendables(list)[..n] == Unspendables(list[..n]);
    }
  }

  /** The total does not depend on how a listing was put together. */
  lemma {:induction false} SumBalancesConcat(a: seq<AddressBalance>, b: seq<AddressBalance>)
    ensures SumBalances(a + b) == SumBalances(a).Add(SumBalances(b))
    decreases |b|
  {
    if b == [] {
      assert a + b == a;
    } else {
      assert (a + b)[..|a + b| - 1] == a + b[..|b| - 1];
      SumBalancesConcat(a, b[..|b| - 1]);
    }
  }

  /** The specification of a scan of all chains; a failure on the second keeps the first. */
  function ScanAllSpec(o: Oracle, account: nat, limit: nat, c: Counts, kind: CoinKind, gapLimit: nat)
    : (Counts, Result<seq<AddressBalance>, HdError>)
  {
    var (c1, r1) := ScanSpec(o, account, limit, c, External, gapLimit);
    if r1.Err? || kind == Evm then (c1, r1)
    else
      var (c2, r2) := ScanSpec(o, account, limit, c1, Internal, gapLimit);
      if r2.Err? then (c2, r2) else (c2, Ok(r1.value + r2.value))
  }

  lemma ScanExtends(o: Oracle, account: nat, limit: nat, base: Counts, c: Counts, chain: Chain, gapLimit: nat,
                    list: seq<AddressBalance>)
    requires Listed(base, c, list)
    requires ScanSpec(o, account, limit, c, chain, gapLimit).1.Ok?
    ensures var (c', r) := ScanSpec(o, account, limit, c, chain, gapLimit);
            c.Of(chain) <= c'.Of(chain) && c' == c.With(chain, c'.Of(chain)) && Listed(base, c', list + r.value)
  {
    var k := Discovered(o, chain, c.Of(chain), gapLimit, limit);
    ListedExtends(base, c, list, chain, k, ScanListing(o, account, chain, c.Of(chain), k));
  }

  /** What a scan of all chains returns continues a listing of what was known before. */
  lemma ScanAllExtends(o: Oracle, account: nat, limit: nat, base: Counts, c: Counts, kind: CoinKind, gapLimit: nat,
                       list: seq<AddressBalance>)
    requires Listed(base, c, list)
    requires ScanAllSpec(o, account, limit, c, kind, gapLimit).1.Ok?
    ensures var (c', r) := ScanAllSpec(o, account, limit, c, kind, gapLimit);
            Listed(base, c', list + r.value) && (kind == Evm ==> c'.internal == c.internal)
  {
    var (c1, r1) := ScanSpec(o, account, limit, c, External, gapLimit);
    ScanExtends(o, account, limit, base, c, External, gapLimit, list);
    if kind == Utxo {
      var (c2, r2) := ScanSpec(o, account, limit, c1, Internal, gapLimit);
      ScanExtends(o, account, limit, base, c1, Internal, gapLimit, list + r1.value);
      assert list + r1.value + r2.value == list + (r1.value + r2.value);
    }
  }

  /** Failing or not, scanning never forgets an address. */
  lemma ScanAllIsMonotone(o: Oracle, account: nat, limit: nat, c: Counts, kind: CoinKind, gapLimit: nat)
    ensures var c' := ScanAllSpec(o, account, limit, c, kind, gapLimit).0;
            c.external <= c'.external && c.internal <= c'.internal
  {
  }

  lemma ScanOfOtherCounts(o: Oracle, account: nat, limit: nat, c: Counts, d: Counts, chain: Chain, gapLimit: nat)
    requires c.Of(chain) == d.Of(chain)
    ensures var (c1, r) := ScanSpec(o, account, limit, c, chain, gapLimit);
            ScanSpec(o, account, limit, d, chain, gapLimit) == (d.With(chain, c1.Of(chain)), r)
  {
    assert d.With(chain, d.Of(chain)) == d;
  }

  /**
   A scan of all chains that follows another one changes nothing, and finds nothing if that one
   succeeded or fails as that one did: what was found before a failure on the second chain is kept.
   */
  lemma ScanAllIsIdempotent(o: Oracle, account: nat, limit: nat, c: Counts, kind: CoinKind, gapLimit: nat)
    ensures var (c', r) := ScanAllSpec(o, account, limit, c, kind, gapLimit);
            && ScanAllSpec(o, account, limit, c', kind, gapLimit) == (c', if r.Ok? then Ok([]) else r)
            && (r.Err? ==> c'.internal == c.internal
                           && c'.external == ScanSpec(o, account, limit, c, External, gapLimit).0.external)
  {
    var (c1, r1) := ScanSpec(o, account, limit, c, External, gapLimit);
    ScanIsIdempotent(o, account, limit, c, External, gapLimit);
    if kind == Utxo && r1.Ok? {
      var (c2, r2) := ScanSpec(o, account, limit, c1, Internal, gapLimit);
      ScanIsIdempotent(o, account, limit, c1, Internal, gapLimit);
      assert c2.external == c1.external && c2.With(External, c1.external) == c2;
      ScanOfOtherCounts(o, account, limit, c1, c2, External, gapLimit);
      assert ScanSpec(o, account, limit, c2, External, gapLimit) == (c2, Ok([]));
      var none: seq<AddressBalance> := [];
      assert none + none == none;
    }
  }

  /** The counts after the optional scan that enabling an account starts with. */
  function AfterScan(o: Oracle, account: nat, limit: nat, c: Counts, kind: CoinKind, gapLimit: nat, scan: bool)
    : Counts
  {
    if scan then ScanAllSpec(o, account, limit, c, kind, gapLimit).0 else c
  }

  /** The counts after topping a complete listing up to `min` entries with addresses of `chain`. */
  function TopUp(kind: CoinKind, c: Counts, chain: Chain, min: Option<nat>): Counts {
    if min.None? then c else c.With(chain, c.Of(chain) + Max(0, min.value - ListedCount(kind, c)))
  }

  /** Every one of the next `missing` addresses can be stored and its balance requested. */
  predicate CanGenerate(o: Oracle, limit: nat, chain: Chain, n: nat, missing: nat) {
    && (missing > 0 ==> n + missing < limit)
    && (forall m: nat :: n < m <= n + missing ==> o.saves(chain, m))
    && (forall id: nat :: n <= id < n + missing ==> o.balance(chain, id).Some?)
  }

  /** The entry is for the account, with the balance the node reports, or zero for an unused address. */
  predicate IsTrue(o: Oracle, account: nat, e: AddressBalance) {
    e.account == account
    && (o.balance(e.chain, e.id) == Some(e.balance) || (!o.IsUsed(e.chain, e.id) && e.balance == ZERO_BALANCE))
  }

  ghost predicate AllTrue(o: Oracle, account: nat, list: seq<AddressBalance>) {
    forall i :: 0 <= i < |list| ==> IsTrue(o, account, list[i])
  }

  /** The balances of all addresses an account knows can be requested. */
  predicate KnownAnswer(o: Oracle, kind: CoinKind, c: Counts) {
    && (forall id: nat :: id < c.external ==> o.balance(External, id).Some?)
    && (kind == Utxo ==> forall id: nat :: id < c.internal ==> o.balance(Internal, id).Some?)
  }

  /** Whether an account that knows `c` can be enabled: every request and every write on the way succeeds. */
  predicate CanEnable(o: Oracle, account: nat, limit: nat, c: Counts, kind: CoinKind, chain: Chain, gapLimit: nat,
                      scan: bool, min: Option<nat>)
  {
    && KnownAnswer(o, kind, c)
    && (scan ==> ScanAllSpec(o, account, limit, c, kind, gapLimit).1.Ok?)
    && CanTopUp(o, limit, kind, AfterScan(o, account, limit, c, kind, gapLimit, scan), chain, min)
  }

  predicate CanTopUp(o: Oracle, limit: nat, kind: CoinKind, c: Counts, chain: Chain, min: Option<nat>) {
    min.Some? ==>
      min.value < limit && CanGenerate(o, limit, chain, c.Of(chain), Max(0, min.value - ListedCount(kind, c)))
  }

  /** The listing of everything an account knows. */
  function KnownListing(o: Oracle, account: nat, kind: CoinKind, c: Counts): seq<AddressBalance>
    requires KnownAnswer(o, kind, c)
  {
    TrueListing(o, account, External, 0, c.external)
    + if kind == Utxo then TrueListing(o, account, Internal, 0, c.internal) else []
  }

  lemma KnownIsListed(o: Oracle, account: nat, kind: CoinKind, c: Counts)
    requires KnownAnswer(o, kind, c)
    ensures Listed(Base(kind, c), c, KnownListing(o, account, kind, c))
    ensures AllTrue(o, account, KnownListing(o, account, kind, c))
  {
    var base := Base(kind, c);
    var external := TrueListing(o, account, External, 0, c.external);
    NothingIsListed(base);
    ListedExtends(base, base, [], External, c.external, external);
    assert [] + external == external;
    assert forall i :: 0 <= i < |external| ==> IsTrue(o, account, external[i]);
    if kind == Utxo {
      var internal := TrueListing(o, account, Internal, 0, c.internal);
      ListedExtends(base, Counts(c.external, 0), external, Internal, c.internal, internal);
      assert forall i :: 0 <= i < |internal| ==> IsTrue(o, account, internal[i]);
    } else {
      assert external + [] == external;
    }
  }

  lemma NothingIsListed(base: Counts)
    ensures Listed(base, base, [])
  {
    assert Range(base.external, base.external) == [] && Range(base.internal, base.internal) == [];
  }

  /** A scanned entry has the balance of a used address, and zero for an unused one, whatever its balance is. */
  predicate IsFound(o: Oracle, account: nat, e: AddressBalance) {
    && e.account == account
    && if o.IsUsed(e.chain, e.id) then o.balance(e.chain, e.id) == Some(e.balance) else e.balance == Balance(0.0, 0.0)
  }

  lemma ScanAllIsTrue(o: Oracle, account: nat, limit: nat, c: Counts, kind: CoinKind, gapLimit: nat)
    requires ScanAllSpec(o, account, limit, c, kind, gapLimit).1.Ok?
    ensures var list := ScanAllSpec(o, account, limit, c, kind, gapLimit).1.value;
            AllTrue(o, account, list) && forall i :: 0 <= i < |list| ==> IsFound(o, account, list[i])
  {
    ScanIsTrue(o, account, limit, c, External, gapLimit);
    if kind == Utxo {
      ScanIsTrue(o, account, limit, ScanSpec(o, account, limit, c, External, gapLimit).0, Internal, gapLimit);
    }
  }

  lemma ScanIsTrue(o: Oracle, account: nat, limit: nat, c: Counts, chain: Chain, gapLimit: nat)
    requires ScanSpec(o, account, limit, c, chain, gapLimit).1.Ok?
    ensures var list := ScanSpec(o, account, limit, c, chain, gapLimit).1.value;
            AllTrue(o, account, list) && forall i :: 0 <= i < |list| ==> IsFound(o, account, list[i])
  {
    var start := c.Of(chain);
    var k := Discovered(o, chain, start, gapLimit, limit);
    var list := ScanListing(o, account, chain, start, k);
    forall i | 0 <= i < |list| ensures IsFound(o, account, list[i]) && IsTrue(o, account, list[i]) {
      var id := start + i;
      assert id < ScanEnd(o, chain, start, gapLimit, limit);
      assert o.Answers(chain, id);
      assert list[i] == AddressBalance(account, chain, id, FoundBalance(o, chain, id));
    }
  }

  lemma ListedLength(kind: CoinKind, before: Counts, c: Counts, list: seq<AddressBalance>)
    requires Listed(Base(kind, before), c, list)
    requires kind == Evm ==> c.internal == before.internal
    ensures |list| == ListedCount(kind, c)
  {
  }

  lemma TopUpExtends(o: Oracle, account: nat, limit: nat, kind: CoinKind, before: Counts, c: Counts, chain: Chain,
                     list: seq<AddressBalance>, hi: nat)
    requires Listed(Base(kind, before), c, list) && AllTrue(o, account, list)
    requires c.Of(chain) <= hi && CanGenerate(o, limit, chain, c.Of(chain), hi - c.Of(chain))
    ensures var longer := list + TrueListing(o, account, chain, c.Of(chain), hi);
            Listed(Base(kind, before), c.With(chain, hi), longer) && AllTrue(o, account, longer)
  {
    var run := TrueListing(o, account, chain, c.Of(chain), hi);
    ListedExtends(Base(kind, before), c, list, chain, hi, run);
    assert forall i :: 0 <= i < |run| ==> IsTrue(o, account, run[i]);
  }

  /** The listing of an enabled account: complete and contiguous on every chain, with a true total. */
  ghost predicate Enables(kind: CoinKind, before: Counts, after: Counts, b: AccountBalance) {
    Listed(Base(kind, before), after, b.addresses) && IsTotal(b.addresses, b.total)
  }

  /** The account, the chain and the address that the caller wants enabled. */
  datatype AddressPath = AddressPath(account: nat, chain: Chain, address: nat)

  /** The minimum number of addresses that enabling asks of the account of the enabled address. */
  function Wanted(min: Option<nat>, path: AddressPath): nat {
    if min.Some? then Max(min.value, path.address + 1) else path.address + 1
  }

  /** An address is known after topping up. The wanted number is compared with the listed addresses of all chains. */
  predicate IsReached(kind: CoinKind, c: Counts, chain: Chain, addressId: nat, min: Option<nat>) {
    || addressId < c.Of(chain)
    || (min.Some? && addressId + (ListedCount(kind, c) - c.Of(chain)) < min.value)
  }

  /**
   Topping up makes an address known exactly when it was known, or when its id and the listed
   addresses of the other chain together stay below the wanted number.
   */
  lemma TopUpIndexesIff(kind: CoinKind, c: Counts, chain: Chain, addressId: nat, min: Option<nat>)
    ensures addressId < TopUp(kind, c, chain, min).Of(chain) <==> IsReached(kind, c, chain, addressId, min)
  {
  }

  /** So an enabled address becomes known where the coin lists no address of another chain. */
  lemma OneChainIsReached(kind: CoinKind, c: Counts, path: AddressPath, min: Option<nat>)
    requires ListedCount(kind, c) <= c.Of(path.chain)
    ensures IsReached(kind, c, path.chain, path.address, Some(Wanted(min, path)))
  {
  }

  /** A UTXO account with change addresses: address 6 is enabled but stays unknown. */
  lemma EnabledAddressMayStayUnknown()
    ensures var after := TopUp(Utxo, Counts(3, 5), External, Some(6 + 1));
            after == Counts(3, 5) && after.external <= 6 && !IsReached(Utxo, Counts(3, 5), External, 6, Some(6 + 1))
  {
  }

  /** Adds up the balances of a listing. */
  method TotalBalance(addresses: seq<AddressBalance>) returns (total: Balance)
    ensures IsTotal(addresses, total)
  {
    total := ZERO_BALANCE;
    for i := 0 to |addresses|
      invariant total == SumBalances(addresses[..i])
    {
      assert addresses[..i + 1][..i] == addresses[..i];
      total := total.Add(addresses[i].balance);
    }
    assert addresses[..|addresses|] == addresses;
    SumBalancesIsTotal(addresses);
  }

  // ---------------------------------------------------------------------------------------
  // The account object
  // ---------------------------------------------------------------------------------------

  class HdAccount {
    const accountId: nat
    const addressLimit: nat
    var externalAddressesNumber: nat
    var internalAddressesNumber: nat

    constructor (accountId: nat, addressLimit: nat)
      ensures this.accountId == accountId && this.addressLimit == addressLimit
      ensures Known() == Counts(0, 0)
    {
      this.accountId := accountId;
      this.addressLimit := addressLimit;
      externalAddressesNumber, internalAddressesNumber := 0, 0;
    }

    function Known(): Counts
      reads this
    {
      Counts(externalAddressesNumber, internalAddressesNumber)
    }

    /** Stores the new number first; the object changes only when the storage accepted it. */
    method SetKnownAddressesNumber(o: Oracle, chain: Chain, n: nat) returns (r: Result<(), HdError>)
      modifies this
      ensures r == (if addressLimit <= n then Err(AddressLimitReached)
                    else if !o.saves(chain, n) then Err(StorageError) else Ok(()))
      ensures Known() == if r.Ok? then old(Known()).With(chain, n) else old(Known())
    {
      if n >= addressLimit {
        return Err(AddressLimitReached);
      }
      if !o.saves(chain, n) {
        return Err(StorageError);
      }
      match chain {
        case External => externalAddressesNumber := n;
        case Internal => internalAddressesNumber := n;
      }
      return Ok(());
    }

    /** The gap-limit scanner. It stops after `gapLimit + 1` unused addresses in a row. */
    method ScanForNewAddresses(o: Oracle, chain: Chain, gapLimit: nat)
      returns (r: Result<seq<AddressBalance>, HdError>)
      modifies this
      ensures (Known(), r) == ScanSpec(o, accountId, addressLimit, old(Known()), chain, gapLimit)
    {
      ghost var start := Known().Of(chain);
      var balances := [];
      var checkingAddressId := Known().Of(chain);
      var unusedAddressesCounter: nat := 0;
      while checkingAddressId < addressLimit && unusedAddressesCounter <= gapLimit
        invariant unusedAddressesCounter <= checkingAddressId
        invariant Scanning(o, chain, start, gapLimit, addressLimit, checkingAddressId, unusedAddressesCounter)
        invariant balances == ScanListing(o, accountId, chain, start, checkingAddressId - unusedAddressesCounter)
        modifies {}
        decreases addressLimit - checkingAddressId
      {
        var status := o.used(chain, checkingAddressId);
        if status.None? {
          ScanFails(o, accountId, addressLimit, Known(), chain, gapLimit, checkingAddressId, unusedAddressesCounter);
          return Err(BalanceError);
        }
        if status.value {
          var balance := o.balance(chain, checkingAddressId);
          if balance.None? {
            ScanFails(o, accountId, addressLimit, Known(), chain, gapLimit, checkingAddressId, unusedAddressesCounter);
            return Err(BalanceError);
          }
          var lastNonEmptyAddressId := checkingAddressId - unusedAddressesCounter;
          balances := balances
            + EmptyListing(accountId, chain, lastNonEmptyAddressId, checkingAddressId)
            + [AddressBalance(accountId, chain, checkingAddressId, balance.value)];
          ScanSeesUsed(o, chain, start, gapLimit, addressLimit, checkingAddressId, unusedAddressesCounter);
          ExtendListing(o, accountId, chain, start, lastNonEmptyAddressId, checkingAddressId);
          unusedAddressesCounter := 0;
        } else {
          ScanSeesUnused(o, chain, start, gapLimit, addressLimit, checkingAddressId, unusedAddressesCounter);
          unusedAddressesCounter := unusedAddressesCounter + 1;
        }
        checkingAddressId := checkingAddressId + 1;
      }
      ScanStops(o, accountId, addressLimit, Known(), chain, gapLimit, checkingAddressId, unusedAddressesCounter);
      var stored := SetKnownAddressesNumber(o, chain, checkingAddressId - unusedAddressesCounter);
      if stored.Err? {
        return Err(stored.error);
      }
      return Ok(balances);
    }

    /** Scans every chain on which the coin keeps addresses. */
    method ScanAllChains(o: Oracle, kind: CoinKind, gapLimit: nat) returns (r: Result<seq<AddressBalance>, HdError>)
      modifies this
      ensures (Known(), r) == ScanAllSpec(o, accountId, addressLimit, old(Known()), kind, gapLimit)
    {
      var addresses :- ScanForNewAddresses(o, External, gapLimit);
      if kind == Utxo {
        var internal :- ScanForNewAddresses(o, Internal, gapLimit);
        addresses := addresses + internal;
      }
      return Ok(addresses);
    }

    /** Requests the balances of ids lo, ..., hi - 1; one failed request fails the whole listing. */
    method BalancesWithIds(o: Oracle, chain: Chain, lo: nat, hi: nat) returns (r: Result<seq<AddressBalance>, HdError>)
      requires lo <= hi
      ensures r.Ok? <==> forall id: nat :: lo <= id < hi ==> o.balance(chain, id).Some?
      ensures r.Ok? ==> r.value == TrueListing(o, accountId, chain, lo, hi)
      ensures r.Err? ==> r.error == BalanceError
    {
      var balances := [];
      for id := lo to hi
        invariant forall j: nat :: lo <= j < id ==> o.balance(chain, j).Some?
        invariant balances == TrueListing(o, accountId, chain, lo, id)
      {
        var balance := o.balance(chain, id);
        if balance.None? {
          return Err(BalanceError);
        }
        balances := balances + [AddressBalance(accountId, chain, id, balance.value)];
      }
      return Ok(balances);
    }

    /** Requests the balances of every known address of the account. */
    method AllKnownAddressesBalances(o: Oracle, kind: CoinKind) returns (r: Result<seq<AddressBalance>, HdError>)
      ensures r.Ok? <==> KnownAnswer(o, kind, Known())
      ensures r.Ok? ==> Listed(Base(kind, Known()), Known(), r.value)
      ensures r.Ok? ==> AllTrue(o, accountId, r.value)
    {
      var c := Known();
      var addresses :- BalancesWithIds(o, External, 0, c.external);
      if kind == Utxo {
        var internal :- BalancesWithIds(o, Internal, 0, c.internal);
        addresses := addresses + internal;
      }
      KnownIsListed(o, accountId, kind, c);
      assert addresses == KnownListing(o, accountId, kind, c);
      return Ok(addresses);
    }

    /** Derives one more address and stores the new number of known addresses. */
    method GenerateNewAddress(o: Oracle, chain: Chain) returns (r: Result<nat, HdError>)
      modifies this
      ensures var n := old(Known()).Of(chain);
              && (r.Ok? <==> n + 1 < addressLimit && o.saves(chain, n + 1))
              && (r.Ok? ==> r.value == n)
              && Known() == if r.Ok? then old(Known()).With(chain, n + 1) else old(Known())
    {
      var newAddressId := Known().Of(chain);
      if newAddressId >= addressLimit {
        return Err(AddressLimitReached);
      }
      var _ :- SetKnownAddressesNumber(o, chain, newAddressId + 1);
      return Ok(newAddressId);
    }

    /** Tops a listing up with new addresses of one chain until it has `min` entries. */
    method GenNewAddresses(o: Oracle, chain: Chain, addresses: seq<AddressBalance>, min: nat)
      returns (r: Result<seq<AddressBalance>, HdError>)
      modifies this
      ensures var n := old(Known()).Of(chain); var missing := Max(0, min - |addresses|);
              && n <= Known().Of(chain) && Known() == old(Known()).With(chain, Known().Of(chain))
              && (r.Ok? <==> min < addressLimit && CanGenerate(o, addressLimit, chain, n, missing))
              && (r.Ok? ==> && Known().Of(chain) == n + missing
                            && r.value == addresses + TrueListing(o, accountId, chain, n, n + missing))
    {
      if min >= addressLimit {
        return Err(AddressLimitReached);
      }
      var n := Known().Of(chain);
      if |addresses| >= min {
        return Ok(addresses);
      }
      var toGenerate := min - |addresses|;
      for i := 0 to toGenerate
        invariant Known() == old(Known()).With(chain, n + i)
        invariant i > 0 ==> n + i < addressLimit
        invariant forall m: nat :: n < m <= n + i ==> o.saves(chain, m)
      {
        var generated :- GenerateNewAddress(o, chain);
      }
      var balances :- BalancesWithIds(o, chain, n, n + toGenerate);
      return Ok(addresses + balances);
    }

    /** Lists what the account knows, continued by what a scan finds if one is wanted. */
    method KnownAndFoundAddresses(o: Oracle, kind: CoinKind, gapLimit: nat, scan: bool)
      returns (r: Result<seq<AddressBalance>, HdError>)
      modifies this
      ensures old(Known()).external <= Known().external && old(Known()).internal <= Known().internal
      ensures r.Ok? <==> && KnownAnswer(o, kind, old(Known()))
                         && (scan ==> ScanAllSpec(o, accountId, addressLimit, old(Known()), kind, gapLimit).1.Ok?)
      ensures r.Ok? ==> AllTrue(o, accountId, r.value)
      ensures r.Ok? ==>
        && Known() == AfterScan(o, accountId, addressLimit, old(Known()), kind, gapLimit, scan)
        && Listed(Base(kind, old(Known())), Known(), r.value)
        && (kind == Evm ==> Known().internal == old(Known()).internal)
    {
      ghost var before := Known();
      var addresses :- AllKnownAddressesBalances(o, kind);
      if scan {
        ScanAllIsMonotone(o, accountId, addressLimit, before, kind, gapLimit);
        var found :- ScanAllChains(o, kind, gapLimit);
        ScanAllExtends(o, accountId, addressLimit, Base(kind, before), before, kind, gapLimit, addresses);
        ScanAllIsTrue(o, accountId, addressLimit, before, kind, gapLimit);
        addresses := addresses + found;
      }
      return Ok(addresses);
    }

    /** Tops a complete listing up if a minimum is asked for; `before` is what the account knew at first. */
    method TopUpAddresses(o: Oracle, kind: CoinKind, chain: Chain, addresses: seq<AddressBalance>, min: Option<nat>,
                          ghost before: Counts)
      returns (r: Result<seq<AddressBalance>, HdError>)
      requires Listed(Base(kind, before), Known(), addresses) && AllTrue(o, accountId, addresses)
      requires kind == Evm ==> Known().internal == before.internal
      modifies this
      ensures old(Known()).external <= Known().external && old(Known()).internal <= Known().internal
      ensures r.Ok? <==> CanTopUp(o, addressLimit, kind, old(Known()), chain, min)
      ensures r.Ok? ==>
        && Known() == TopUp(kind, old(Known()), chain, min)
        && Listed(Base(kind, before), Known(), r.value)
        && AllTrue(o, accountId, r.value)
        && (min.Some? ==> min.value <= |r.value|)
    {
      if min.None? {
        return Ok(addresses);
      }
      ghost var c := Known();
      ListedLength(kind, before, c, addresses);
      r := GenNewAddresses(o, chain, addresses, min.value);
      if r.Ok? {
        TopUpExtends(o, accountId, addressLimit, kind, before, c, chain, addresses, Known().Of(chain));
      }
    }

    /**
     Lists an account: everything it knows, then what a scan finds, then new addresses up to `min`.
     On every chain the listing runs through the ids without a gap and without a repeat, and its
     end is the number of addresses the account knows afterwards.
     */
    method EnableHdAccount(o: Oracle, kind: CoinKind, chain: Chain, gapLimit: nat, scan: bool, min: Option<nat>)
      returns (r: Result<AccountBalance, HdError>)
      modifies this
      ensures old(Known()).external <= Known().external && old(Known()).internal <= Known().internal
      ensures r.Ok? <==> CanEnable(o, accountId, addressLimit, old(Known()), kind, chain, gapLimit, scan, min)
      ensures r.Ok? ==> Enables(kind, old(Known()), Known(), r.value)
      ensures r.Ok? ==> AllTrue(o, accountId, r.value.addresses)
      ensures r.Ok? ==> r.value.account == accountId
      ensures r.Ok? ==>
        Known() == TopUp(kind, AfterScan(o, accountId, addressLimit, old(Known()), kind, gapLimit, scan), chain, min)
      ensures r.Ok? && min.Some? ==> min.value <= |r.value.addresses| && min.value < addressLimit
      ensures r.Ok? && chain in Chains(kind) ==> |r.value.addresses| == ListedCount(kind, Known())
      ensures r.Ok? ==> forall id: nat :: id < Known().Of(chain) <==>
        IsReached(kind, AfterScan(o, accountId, addressLimit, old(Known()), kind, gapLimit, scan), chain, id, min)
    {
      ghost var before := Known();
      var addresses :- KnownAndFoundAddresses(o, kind, gapLimit, scan);
      ghost var scanned := Known();
      addresses :- TopUpAddresses(o, kind, chain, addresses, min, before);
      forall id: nat ensures id < Known().Of(chain) <==> IsReached(kind, scanned, chain, id, min) {
        TopUpIndexesIff(kind, scanned, chain, id, min);
      }
      var total := TotalBalance(addresses);
      return Ok(AccountBalance(accountId, total, addresses));
    }
  }

  // ---------------------------------------------------------------------------------------
  // The wallet object
  // ---------------------------------------------------------------------------------------

  datatype ScanPolicy = DoNotScan | ScanIfNewWallet | Scan

  /** The account lists ids 0, ..., n - 1 of each of its chains with their balances, and the total is their sum. */
  ghost predicate IsListed(oracles: nat -> Oracle, kind: CoinKind, account: HdAccount, b: AccountBalance)
    reads account
  {
    && b.account == account.accountId
    && AllTrue(oracles(account.accountId), account.accountId, b.addresses)
    && IsTotal(b.addresses, b.total)
    && forall c: Chain :: c in Chains(kind) ==> IdsOn(b.addresses, c) == Range(0, account.Known().Of(c))
  }

  /** The minimum that enabling the wallet asks of an account. */
  function MinimumOf(account: nat, min: Option<nat>, path: AddressPath): Option<nat> {
    if account == path.account then Some(Wanted(min, path)) else min
  }

  /** How enabling the wallet treats its accounts. */
  datatype Enabling = Enabling(kind: CoinKind, gapLimit: nat, scan: bool, min: Option<nat>, path: AddressPath)

  /**
   The account is listed as it is afterwards, with at least the asked number of addresses. The address
   of the path is known exactly if it is reached from what was known after the scan.
   */
  ghost predicate IsEnabled(oracles: nat -> Oracle, e: Enabling, account: HdAccount, before: Counts, b: AccountBalance)
    reads account
  {
    var id := account.accountId;
    var min := MinimumOf(id, e.min, e.path);
    var scanned := AfterScan(oracles(id), id, account.addressLimit, before, e.kind, e.gapLimit, e.scan);
    && IsListed(oracles, e.kind, account, b)
    && account.Known() == TopUp(e.kind, scanned, e.path.chain, min)
    && (min.Some? ==> min.value <= |b.addresses|)
    && (e.path.chain in Chains(e.kind) ==> |b.addresses| == ListedCount(e.kind, account.Known()))
    && (e.path.address < account.Known().Of(e.path.chain)
        <==> IsReached(e.kind, scanned, e.path.chain, e.path.address, min))
  }

  /** Whether an account that knows `known` can be enabled as part of the wallet. */
  predicate CanEnableAccount(oracles: nat -> Oracle, e: Enabling, account: HdAccount, known: Counts) {
    CanEnable(oracles(account.accountId), account.accountId, account.addressLimit, known, e.kind, e.path.chain,
              e.gapLimit, e.scan, MinimumOf(account.accountId, e.min, e.path))
  }

  twostate predicate NeverForgets(account: HdAccount)
    reads account
  {
    && old(account.Known()).external <= account.Known().external
    && old(account.Known()).internal <= account.Known().internal
  }

  /** Every account could be enabled from what it knew before. */
  twostate predicate CouldEnableAll(oracles: nat -> Oracle, e: Enabling, accounts: seq<HdAccount>)
    reads accounts
  {
    forall i :: 0 <= i < |accounts| ==> CanEnableAccount(oracles, e, accounts[i], old(accounts[i].Known()))
  }

  /** Every account is enabled, and reported in its order. */
  twostate predicate AreEnabled(oracles: nat -> Oracle, e: Enabling, accounts: seq<HdAccount>, bs: seq<AccountBalance>)
    reads accounts
  {
    && |bs| == |accounts|
    && forall i :: 0 <= i < |accounts| ==> IsEnabled(oracles, e, accounts[i], old(accounts[i].Known()), bs[i])
  }

  class HdWallet {
    const accountLimit: nat
    const addressLimit: nat
    const gapLimit: nat
    /** In the order of their account ids. */
    var accounts: seq<HdAccount>

    constructor (accountLimit: nat, addressLimit: nat, gapLimit: nat)
      ensures Valid() && accounts == []
      ensures this.accountLimit == accountLimit && this.addressLimit == addressLimit && this.gapLimit == gapLimit
    {
      this.accountLimit, this.addressLimit, this.gapLimit := accountLimit, addressLimit, gapLimit;
      accounts := [];
    }

    ghost predicate Valid()
      reads this
    {
      forall i, j :: 0 <= i < j < |accounts| ==> accounts[i].accountId < accounts[j].accountId
    }

    ghost predicate HasAccount(id: nat)
      reads this
    {
      exists i :: 0 <= i < |accounts| && accounts[i].accountId == id
    }

    /** The position of an account, or where it would have to be inserted. */
    method Find(id: nat) returns (at: nat, found: bool)
      requires Valid()
      ensures found == HasAccount(id)
      ensures at <= |accounts|
      ensures found ==> at < |accounts| && accounts[at].accountId == id
      ensures forall i :: 0 <= i < at ==> accounts[i].accountId < id
      ensures !found ==> forall i :: at <= i < |accounts| ==> id < accounts[i].accountId
    {
      at := 0;
      while at < |accounts| && accounts[at].accountId < id
        invariant at <= |accounts|
        invariant forall i :: 0 <= i < at ==> accounts[i].accountId < id
      {
        at := at + 1;
      }
      found := at < |accounts| && accounts[at].accountId == id;
    }

    /**
     Creates an account and inserts it in the order of the ids. `extracts` and `uploads` say whether
     extracting its public key and storing it succeed.
     */
    method CreateAccount(id: nat, extracts: bool, uploads: bool) returns (r: Result<HdAccount, HdError>)
      requires Valid()
      modifies this
      ensures Valid()
      ensures r.Err? ==> accounts == old(accounts)
      ensures r.Err? ==> r.error == if id >= accountLimit then AccountLimitReached
                                    else if !extracts then ExtractionError
                                    else if old(HasAccount(id)) then AccountExists
                                    else StorageError
      ensures r.Ok? <==> id < accountLimit && extracts && !old(HasAccount(id)) && uploads
      ensures r.Ok? ==>
        && fresh(r.value) && r.value.accountId == id && r.value.addressLimit == addressLimit
        && r.value.Known() == Counts(0, 0)
        && exists at :: 0 <= at <= |old(accounts)|
                        && accounts == old(accounts)[..at] + [r.value] + old(accounts)[at..]
    {
      if id >= accountLimit {
        return Err(AccountLimitReached);
      }
      if !extracts {
        return Err(ExtractionError);
      }
      var at, found := Find(id);
      if found {
        return Err(AccountExists);
      }
      if !uploads {
        return Err(StorageError);
      }
      var account := new HdAccount(id, addressLimit);
      accounts := accounts[..at] + [account] + accounts[at..];
      return Ok(account);
    }

    /** Enables one account; the account of the path gets as many addresses as it needs. */
    method EnableAccount(oracles: nat -> Oracle, e: Enabling, account: HdAccount)
      returns (r: Result<AccountBalance, HdError>)
      modifies account
      ensures NeverForgets(account)
      ensures r.Ok? <==> CanEnableAccount(oracles, e, account, old(account.Known()))
      ensures r.Ok? ==> IsEnabled(oracles, e, account, old(account.Known()), r.value)
    {
      var id := account.accountId;
      r := account.EnableHdAccount(oracles(id), e.kind, e.path.chain, e.gapLimit, e.scan, MinimumOf(id, e.min, e.path));
    }

    /** Enables every account, in the order of their ids. */
    method EnableAccounts(oracles: nat -> Oracle, e: Enabling) returns (r: Result<seq<AccountBalance>, HdError>)
      requires Valid()
      modifies accounts
      ensures forall a :: a in accounts ==> NeverForgets(a)
      ensures r.Ok? <==> CouldEnableAll(oracles, e, accounts)
      ensures r.Ok? ==> AreEnabled(oracles, e, accounts, r.value)
    {
      var result := [];
      for i := 0 to |accounts|
        invariant |result| == i
        invariant forall j :: 0 <= j < i ==> CanEnableAccount(oracles, e, accounts[j], old(accounts[j].Known()))
        invariant forall j :: 0 <= j < i ==> IsEnabled(oracles, e, accounts[j], old(accounts[j].Known()), result[j])
        invariant forall j :: 0 <= j < i ==> NeverForgets(accounts[j])
        invariant forall j :: i <= j < |accounts| ==> accounts[j].Known() == old(accounts[j].Known())
      {
        assert forall j :: 0 <= j < |accounts| && j != i ==> accounts[j] != accounts[i];
        var balance :- EnableAccount(oracles, e, accounts[i]);
        result := result + [balance];
      }
      return Ok(result);
    }

    /** Creates the account of the path, and enables it alone. */
    method EnableNewAccount(oracles: nat -> Oracle, e: Enabling, extracts: bool, uploads: bool)
      returns (r: Result<seq<AccountBalance>, HdError>)
      requires Valid() && !HasAccount(e.path.account)
      modifies this
      ensures Valid()
      ensures forall a :: a in old(accounts) ==> a in accounts
      ensures r.Ok? <==>
        && e.path.account < accountLimit && extracts && uploads
        && CanEnable(oracles(e.path.account), e.path.account, addressLimit, Counts(0, 0), e.kind, e.path.chain,
                     e.gapLimit, e.scan, Some(Wanted(e.min, e.path)))
      ensures r.Ok? ==>
        && |r.value| == 1
        && exists i :: 0 <= i < |accounts| && accounts[i].accountId == e.path.account
                       && IsEnabled(oracles, e, accounts[i], Counts(0, 0), r.value[0])
    {
      var account :- CreateAccount(e.path.account, extracts, uploads);
      ghost var i :| 0 <= i <= |old(accounts)| && accounts == old(accounts)[..i] + [account] + old(accounts)[i..];
      assert accounts[i] == account;
      var balance :- EnableAccount(oracles, e, account);
      r := Ok([balance]);
    }

    /**
     Enables the wallet. `oracles` answers for each account; `extracts` and `uploads` say whether a new
     account can be created. A wallet without the account of the path gets it, and then only that account
     is enabled and reported.
     */
    method EnableHdWallet(oracles: nat -> Oracle, kind: CoinKind, extracts: bool, uploads: bool, policy: ScanPolicy,
                          min: Option<nat>, path: AddressPath)
      returns (r: Result<seq<AccountBalance>, HdError>)
      requires Valid()
      modifies this, accounts
      ensures Valid()
      ensures forall a :: a in old(accounts) ==> a in accounts && NeverForgets(a)
      ensures old(HasAccount(path.account)) ==>
        var e := Enabling(kind, gapLimit, policy == Scan, min, path);
        && accounts == old(accounts)
        && (r.Ok? <==> CouldEnableAll(oracles, e, old(accounts)))
        && (r.Ok? ==> AreEnabled(oracles, e, old(accounts), r.value))
      ensures !old(HasAccount(path.account)) ==>
        var e := Enabling(kind, gapLimit, policy != DoNotScan, min, path);
        && (r.Ok? <==> path.account < accountLimit && extracts && uploads
                       && CanEnable(oracles(path.account), path.account, addressLimit, Counts(0, 0), kind, path.chain,
                                    gapLimit, policy != DoNotScan, Some(Wanted(min, path))))
        && (r.Ok? ==> |r.value| == 1
                      && exists i :: 0 <= i < |accounts| && accounts[i].accountId == path.account
                                     && IsEnabled(oracles, e, accounts[i], Counts(0, 0), r.value[0]))
    {
      var _, found := Find(path.account);
      if found {
        r := EnableAccounts(oracles, Enabling(kind, gapLimit, policy == Scan, min, path));
        return;
      }
      r := EnableNewAccount(oracles, Enabling(kind, gapLimit, policy != DoNotScan, min, path), extracts, uploads);
    }
  }
}
