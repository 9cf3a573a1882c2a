/**
 Synchronising the transaction history of an address: the traces of ETH and the transfer events of
 an ERC20 token are fetched in windows of blocks, backwards from where the first run started and
 forwards to the current block. Every iteration starts from what the previous one stored, so a
 restart is just another iteration.
 */
module HistorySync {
  import opened Wrappers

  /** A trace or an event. Its internal id is an injective hash of it, so the item stands for its id. */
  datatype Item = Item(block: nat, from: nat, to: nat, txHash: nat, isCall: bool)

  /** The items of each block. */
  type Ledger = nat -> seq<Item>

  datatype Kind = EthTraces | Erc20Events

  datatype Window = Window(lo: nat, hi: nat) {
    predicate Has(b: nat) {
      lo <= b <= hi
    }
  }

  datatype Saved = Saved(items: seq<Item>, earliest: nat, latest: nat)

  /**
   What is stored: the fetched items and the history. And what has happened: the windows fetched so far
   (each once for the sender and once for the receiver), and the earliest blocks from which the
   successful backward steps started.
   */
  datatype State = State(saved: Option<Saved>, windows: seq<Window>, starts: seq<nat>, history: seq<Item>)

  /**
   What one iteration meets: the block number, which of the four queries succeed, which loads of the
   history succeed, in which order the items are visited, for which of them the transaction, the receipt
   and the block can be requested, and whether a history of some length can be written.
   */
  datatype Answers = Answers(
    current: Option<nat>,
    backFrom: bool, backTo: bool, aheadFrom: bool, aheadTo: bool,
    loads: nat -> bool,
    arrange: seq<Item> -> seq<Item>,
    lookup: Item -> bool,
    saves: nat -> bool)

  const ERC20_DELTA := 10000

  ghost predicate WellFormed(ledger: Ledger) {
    forall b: nat, i :: 0 <= i < |ledger(b)| ==> ledger(b)[i].block == b
  }

  // ---------------------------------------------------------------------------------------
  // Queries
  // ---------------------------------------------------------------------------------------

  /** The item names the address as its sender, or as its receiver. */
  predicate Names(t: Item, me: nat, asSender: bool) {
    (if asSender then t.from else t.to) == me
  }

  function Filter(items: seq<Item>, me: nat, asSender: bool): seq<Item> {
    if items == [] then []
    else
      var last := items[|items| - 1];
      Filter(items[..|items| - 1], me, asSender) + if Names(last, me, asSender) then [last] else []
  }

  lemma {:induction false} FilterIs(items: seq<Item>, me: nat, asSender: bool, t: Item)
    ensures t in Filter(items, me, asSender) <==> t in items && Names(t, me, asSender)
  {
    if items != [] {
      FilterIs(items[..|items| - 1], me, asSender, t);
      assert t in items <==> t in items[..|items| - 1] || t == items[|items| - 1];
    }
  }

  /** The items of blocks lo, ..., hi that name the address as the sender, or as the receiver. */
  function Query(ledger: Ledger, me: nat, asSender: bool, lo: nat, hi: nat): seq<Item>
    decreases hi
  {
    if hi < lo then []
    else (if hi == 0 then [] else Query(ledger, me, asSender, lo, hi - 1)) + Filter(ledger(hi), me, asSender)
  }

  lemma {:induction false} QueryIs(ledger: Ledger, me: nat, asSender: bool, lo: nat, hi: nat, t: Item)
    requires WellFormed(ledger)
    ensures t in Query(ledger, me, asSender, lo, hi)
        <==> lo <= t.block <= hi && t in ledger(t.block) && Names(t, me, asSender)
    decreases hi
  {
    if lo <= hi {
      FilterIs(ledger(hi), me, asSender, t);
      assert t in ledger(hi) ==> t.block == hi;
      if hi > 0 {
        QueryIs(ledger, me, asSender, lo, hi - 1, t);
      }
    }
  }

  // ---------------------------------------------------------------------------------------
  // One iteration
  // ---------------------------------------------------------------------------------------

  /** Traces are fetched up to the earliest block, events only up to the block before it. */
  function BackWindow(kind: Kind, delta: nat, earliest: nat): Window
    requires earliest > 0
  {
    var before := if earliest >= delta then earliest - delta else 0;
    Window(before, if kind.EthTraces? then earliest else earliest - 1)
  }

  function EarliestAfter(delta: nat, earliest: nat): nat {
    if earliest > delta then earliest - delta - 1 else 0
  }

  function Fetch(ledger: Ledger, me: nat, w: Window): seq<Item>
  {
    Query(ledger, me, true, w.lo, w.hi) + Query(ledger, me, false, w.lo, w.hi)
  }

  /** The backward part: the state and the loaded items after it; `None` when a query failed. */
  function Back(kind: Kind, delta: nat, ledger: Ledger, me: nat, st: State, s: Saved, a: Answers)
    : Option<(State, Saved)>
  {
    if s.earliest == 0 then Some((st, s))
    else if !a.backFrom || !a.backTo then None
    else
      var w := BackWindow(kind, delta, s.earliest);
      var s' := Saved(s.items + Fetch(ledger, me, w), EarliestAfter(delta, s.earliest), s.latest);
      Some((State(Some(s'), st.windows + [w], st.starts + [s.earliest], st.history), s'))
  }

  /** The forward part. */
  function Ahead(ledger: Ledger, me: nat, st: State, s: Saved, current: nat, a: Answers): Option<(State, Saved)>
  {
    if current <= s.latest then Some((st, s))
    else if !a.aheadFrom || !a.aheadTo then None
    else
      var w := Window(s.latest + 1, current);
      var s' := Saved(s.items + Fetch(ledger, me, w), s.earliest, current);
      Some((State(Some(s'), st.windows + [w], st.starts, st.history), s'))
  }

  /** Of the traces only calls are shown. */
  predicate IsShown(kind: Kind, t: Item) {
    kind.Erc20Events? || t.isCall
  }

  /** The stored history after the items from position i on have been visited; for events it is loaded every time. */
  function Extend(kind: Kind, history: seq<Item>, visited: seq<Item>, i: nat, a: Answers): seq<Item>
    decreases |visited| - i
  {
    if |visited| <= i || (kind.Erc20Events? && !a.loads(i)) then history
    else
      var t := visited[i];
      if t in history || !IsShown(kind, t) || !a.lookup(t) then Extend(kind, history, visited, i + 1, a)
      else if !a.saves(|history| + 1) then history
      else Extend(kind, history + [t], visited, i + 1, a)
  }

  /** Traces are visited by block, events as a map with one event for each transaction. */
  ghost predicate Arranged(kind: Kind, items: seq<Item>, visited: seq<Item>) {
    forall t :: t in visited <==> IsVisited(kind, items, t)
  }

  /** The map keeps the last event of a transaction. */
  ghost predicate IsVisited(kind: Kind, items: seq<Item>, t: Item) {
    exists k :: 0 <= k < |items| && items[k] == t
                && (kind.Erc20Events? ==> forall j :: k < j < |items| ==> items[j].txHash != t.txHash)
  }

  ghost predicate Arranges(kind: Kind, a: Answers) {
    forall items :: Arranged(kind, items, a.arrange(items))
  }

  /** What is loaded: an address without a stored state starts from the current block. */
  function Loaded(st: State, current: nat): Saved {
    if st.saved.Some? then st.saved.value else Saved([], current, current)
  }

  function Step(kind: Kind, delta: nat, ledger: Ledger, me: nat, st: State, a: Answers): State
  {
    if a.current.None? || (kind.EthTraces? && !a.loads(0)) then st
    else
      var back := Back(kind, delta, ledger, me, st, Loaded(st, a.current.value), a);
      if back.None? then st
      else
        var ahead := Ahead(ledger, me, back.value.0, back.value.1, a.current.value, a);
        if ahead.None? then back.value.0
        else
          var (full, s) := ahead.value;
          full.(history := Extend(kind, full.history, a.arrange(s.items), 0, a))
  }

  const START := State(None, [], [], [])

  /** The storage of one address, and what has been fetched for it. */
  class HistoryFile {
    var saved: Option<Saved>
    var history: seq<Item>
    ghost var windows: seq<Window>
    ghost var starts: seq<nat>

    constructor ()
      ensures Value() == START
    {
      saved, history, windows, starts := None, [], [], [];
    }

    ghost function Value(): State
      reads this
    {
      State(saved, windows, starts, history)
    }

    /** Fetches the blocks before the earliest one; false when a query failed. */
    method FetchBack(kind: Kind, delta: nat, ledger: Ledger, me: nat, s: Saved, a: Answers)
      returns (ok: bool, s': Saved)
      modifies this
      ensures ok == Back(kind, delta, ledger, me, old(Value()), s, a).Some?
      ensures if ok then Back(kind, delta, ledger, me, old(Value()), s, a) == Some((Value(), s'))
              else Value() == old(Value())
    {
      s' := s;
      if s.earliest > 0 {
        var beforeEarliest := if s.earliest >= delta then s.earliest - delta else 0;
        var hi := if kind.EthTraces? then s.earliest else s.earliest - 1;
        if !a.backFrom {
          return false, s;
        }
        var fromMe := Query(ledger, me, true, beforeEarliest, hi);
        if !a.backTo {
          return false, s;
        }
        var toMe := Query(ledger, me, false, beforeEarliest, hi);
        starts := starts + [s.earliest];
        windows := windows + [Window(beforeEarliest, hi)];
        var earliest := if beforeEarliest > 0 then beforeEarliest - 1 else 0;
        s' := Saved(s.items + (fromMe + toMe), earliest, s.latest);
        saved := Some(s');
      }
      ok := true;
    }

    /** Fetches the blocks after the latest one; false when a query failed. */
    method FetchAhead(ledger: Ledger, me: nat, s: Saved, current: nat, a: Answers) returns (ok: bool, s': Saved)
      modifies this
      ensures ok == Ahead(ledger, me, old(Value()), s, current, a).Some?
      ensures if ok then Ahead(ledger, me, old(Value()), s, current, a) == Some((Value(), s'))
              else Value() == old(Value())
    {
      s' := s;
      if current > s.latest {
        if !a.aheadFrom {
          return false, s;
        }
        var fromMe := Query(ledger, me, true, s.latest + 1, current);
        if !a.aheadTo {
          return false, s;
        }
        var toMe := Query(ledger, me, false, s.latest + 1, current);
        windows := windows + [Window(s.latest + 1, current)];
        s' := Saved(s.items + (fromMe + toMe), s.earliest, current);
        saved := Some(s');
      }
      ok := true;
    }

    /** Adds the visited items to the history and writes it after every one. */
    method AddToHistory(kind: Kind, visited: seq<Item>, a: Answers)
      modifies this
      ensures Value() == old(Value()).(history := Extend(kind, old(history), visited, 0, a))
    {
      for i := 0 to |visited|
        invariant Value() == old(Value()).(history := history)
        invariant Extend(kind, history, visited, i, a) == Extend(kind, old(history), visited, 0, a)
      {
        var t := visited[i];
        if kind.Erc20Events? && !a.loads(i) {
          return;
        }
        if t in history || !IsShown(kind, t) || !a.lookup(t) {
          continue;
        }
        if !a.saves(|history| + 1) {
          return;
        }
        history := history + [t];
      }
    }

    /** One iteration of the history loop. */
    method Iterate(kind: Kind, delta: nat, ledger: Ledger, me: nat, a: Answers)
      modifies this
      ensures Value() == Step(kind, delta, ledger, me, old(Value()), a)
    {
      if a.current.None? || (kind.EthTraces? && !a.loads(0)) {
        return;
      }
      var currentBlock := a.current.value;
      var s := if saved.Some? then saved.value else Saved([], currentBlock, currentBlock);
      var ok;
      ok, s := FetchBack(kind, delta, ledger, me, s, a);
      if !ok {
        return;
      }
      ok, s := FetchAhead(ledger, me, s, currentBlock, a);
      if !ok {
        return;
      }
      AddToHistory(kind, a.arrange(s.items), a);
    }
  }

  // ---------------------------------------------------------------------------------------
  // Runs
  // ---------------------------------------------------------------------------------------

  function Run(kind: Kind, delta: nat, ledger: Ledger, me: nat, st: State, answers: seq<Answers>): State
    decreases |answers|
  {
    if answers == [] then st
    else Run(kind, delta, ledger, me, Step(kind, delta, ledger, me, st, answers[0]), answers[1..])
  }

  /** How many windows a block was fetched in. */
  function Times(windows: seq<Window>, b: nat): nat {
    if windows == [] then 0
    else Times(windows[..|windows| - 1], b) + if windows[|windows| - 1].Has(b) then 1 else 0
  }

  /** The earliest block after n backward steps from s0. */
  function Down(delta: nat, s0: nat, n: nat): nat {
    if s0 <= n * (delta + 1) then 0 else s0 - n * (delta + 1)
  }

  /** The blocks between the two ends have been fetched once, except for the starts of an event sync. */
  predicate IsFetched(kind: Kind, starts: seq<nat>, s: Saved, b: nat) {
    s.earliest < b <= s.latest && (kind.Erc20Events? ==> b !in starts)
  }

  /** How far down the backward steps have come. */
  ghost predicate Descends(delta: nat, starts: seq<nat>, s: Saved) {
    && s.earliest <= s.latest
    && (starts == [] ==> s.earliest == 0 || s.earliest == s.latest)
    && (starts != [] ==> starts[0] <= s.latest && s.earliest == Down(delta, starts[0], |starts|))
    && (forall i :: 0 <= i < |starts| ==> starts[i] == Down(delta, starts[0], i) && s.earliest < starts[i])
  }

  ghost predicate Covers(kind: Kind, windows: seq<Window>, starts: seq<nat>, s: Saved) {
    forall b: nat :: b > 0 ==> Times(windows, b) == if IsFetched(kind, starts, s, b) then 1 else 0
  }

  ghost predicate Holds(ledger: Ledger, me: nat, windows: seq<Window>, s: Saved) {
    forall t: Item :: t in s.items <==>
      Times(windows, t.block) > 0 && t in ledger(t.block) && (t.from == me || t.to == me)
  }

  ghost predicate Inv(kind: Kind, delta: nat, ledger: Ledger, me: nat, st: State) {
    match st.saved
    case None => st.windows == [] && st.starts == []
    case Some(s) =>
      && Descends(delta, st.starts, s)
      && (st.starts == [] ==> s.earliest == 0)
      && Covers(kind, st.windows, st.starts, s)
      && Holds(ledger, me, st.windows, s)
  }

  lemma TimesOfNext(windows: seq<Window>, w: Window, b: nat)
    ensures Times(windows + [w], b) == Times(windows, b) + if w.Has(b) then 1 else 0
  {
    assert (windows + [w])[..|windows|] == windows;
  }

  lemma FetchHolds(ledger: Ledger, me: nat, windows: seq<Window>, s: Saved, w: Window, s': Saved)
    requires WellFormed(ledger) && Holds(ledger, me, windows, s)
    requires s'.items == s.items + Fetch(ledger, me, w)
    ensures Holds(ledger, me, windows + [w], s')
  {
    forall t: Item
      ensures t in s'.items <==>
              Times(windows + [w], t.block) > 0 && t in ledger(t.block) && (t.from == me || t.to == me)
    {
      TimesOfNext(windows, w, t.block);
      QueryIs(ledger, me, true, w.lo, w.hi, t);
      QueryIs(ledger, me, false, w.lo, w.hi, t);
    }
  }

  lemma DownOfNext(delta: nat, s0: nat, n: nat)
    ensures Down(delta, s0, n + 1) == EarliestAfter(delta, Down(delta, s0, n))
  {
    assert (n + 1) * (delta + 1) == n * (delta + 1) + (delta + 1);
  }

  lemma BackKeepsInv(kind: Kind, delta: nat, ledger: Ledger, me: nat, windows: seq<Window>, starts: seq<nat>, s: Saved)
    requires WellFormed(ledger) && s.earliest > 0
    requires Descends(delta, starts, s) && Covers(kind, windows, starts, s) && Holds(ledger, me, windows, s)
    ensures var w := BackWindow(kind, delta, s.earliest);
            var s' := Saved(s.items + Fetch(ledger, me, w), EarliestAfter(delta, s.earliest), s.latest);
            forall h :: Inv(kind, delta, ledger, me, State(Some(s'), windows + [w], starts + [s.earliest], h))
  {
    var w := BackWindow(kind, delta, s.earliest);
    var s' := Saved(s.items + Fetch(ledger, me, w), EarliestAfter(delta, s.earliest), s.latest);
    FetchHolds(ledger, me, windows, s, w, s');
    var s0 := (starts + [s.earliest])[0];
    assert s.earliest == Down(delta, s0, |starts|);
    DownOfNext(delta, s0, |starts|);
    forall b: nat | b > 0
      ensures Times(windows + [w], b) == if IsFetched(kind, starts + [s.earliest], s', b) then 1 else 0
    {
      TimesOfNext(windows, w, b);
      assert b in starts ==> s.earliest < b;
      assert b in starts + [s.earliest] <==> b in starts || b == s.earliest;
    }
  }

  lemma StartsAreLow(delta: nat, starts: seq<nat>, s: Saved)
    requires Descends(delta, starts, s)
    ensures forall b :: b in starts ==> b <= starts[0] <= s.latest
  {
    forall i | 0 <= i < |starts| ensures starts[i] <= starts[0] {
      assert 0 <= i * (delta + 1);
    }
  }

  lemma AheadKeepsInv(kind: Kind, delta: nat, ledger: Ledger, me: nat, windows: seq<Window>, starts: seq<nat>, s: Saved,
                      current: nat)
    requires WellFormed(ledger) && s.latest < current
    requires Descends(delta, starts, s) && Covers(kind, windows, starts, s) && Holds(ledger, me, windows, s)
    requires starts == [] ==> s.earliest == 0
    ensures var w := Window(s.latest + 1, current);
            var s' := Saved(s.items + Fetch(ledger, me, w), s.earliest, current);
            forall h :: Inv(kind, delta, ledger, me, State(Some(s'), windows + [w], starts, h))
  {
    var w := Window(s.latest + 1, current);
    var s' := Saved(s.items + Fetch(ledger, me, w), s.earliest, current);
    FetchHolds(ledger, me, windows, s, w, s');
    StartsAreLow(delta, starts, s);
    forall b: nat | b > 0 ensures Times(windows + [w], b) == if IsFetched(kind, starts, s', b) then 1 else 0 {
      TimesOfNext(windows, w, b);
    }
  }

  /** The loaded items that the iteration works on. */
  ghost predicate IsSound(kind: Kind, delta: nat, ledger: Ledger, me: nat, st: State, s: Saved) {
    && Descends(delta, st.starts, s) && Covers(kind, st.windows, st.starts, s) && Holds(ledger, me, st.windows, s)
    && (st.saved == Some(s) || (st.saved.None? && s.latest == s.earliest))
    && Inv(kind, delta, ledger, me, st)
  }

  lemma BackIsSound(kind: Kind, delta: nat, ledger: Ledger, me: nat, st: State, s: Saved, a: Answers)
    requires WellFormed(ledger) && IsSound(kind, delta, ledger, me, st, s)
    requires Back(kind, delta, ledger, me, st, s, a).Some?
    ensures var (mid, s1) := Back(kind, delta, ledger, me, st, s, a).value;
            && IsSound(kind, delta, ledger, me, mid, s1)
            && (mid.starts == [] ==> s1.earliest == 0)
            && s1.latest == s.latest && s1.earliest <= s.earliest
  {
    if s.earliest > 0 {
      BackKeepsInv(kind, delta, ledger, me, st.windows, st.starts, s);
    }
  }

  lemma AheadIsSound(kind: Kind, delta: nat, ledger: Ledger, me: nat, st: State, s: Saved, current: nat, a: Answers)
    requires WellFormed(ledger) && IsSound(kind, delta, ledger, me, st, s)
    requires st.starts == [] ==> s.earliest == 0
    requires Ahead(ledger, me, st, s, current, a).Some?
    ensures var (full, s1) := Ahead(ledger, me, st, s, current, a).value;
            && Inv(kind, delta, ledger, me, full)
            && (full.saved.Some? ==> s.latest <= full.saved.value.latest && full.saved.value.earliest <= s.earliest)
  {
    if s.latest < current {
      AheadKeepsInv(kind, delta, ledger, me, st.windows, st.starts, s, current);
    }
  }

  /** The invariant holds afterwards, the latest block has not decreased and the earliest not increased. */
  ghost predicate Advances(kind: Kind, delta: nat, ledger: Ledger, me: nat, st: State, st': State) {
    && Inv(kind, delta, ledger, me, st')
    && (st.saved.Some? ==> st'.saved.Some? && st.saved.value.latest <= st'.saved.value.latest
                           && st'.saved.value.earliest <= st.saved.value.earliest)
  }

  lemma FetchingAdvances(kind: Kind, delta: nat, ledger: Ledger, me: nat, st: State, current: nat, a: Answers)
    requires WellFormed(ledger) && Inv(kind, delta, ledger, me, st)
    ensures var back := Back(kind, delta, ledger, me, st, Loaded(st, current), a);
            back.Some? ==>
              && Advances(kind, delta, ledger, me, st, back.value.0)
              && var ahead := Ahead(ledger, me, back.value.0, back.value.1, current, a);
                 ahead.Some? ==> Advances(kind, delta, ledger, me, st, ahead.value.0)
  {
    var s := Loaded(st, current);
    if Back(kind, delta, ledger, me, st, s, a).Some? {
      BackIsSound(kind, delta, ledger, me, st, s, a);
      var (mid, s1) := Back(kind, delta, ledger, me, st, s, a).value;
      if Ahead(ledger, me, mid, s1, current, a).Some? {
        AheadIsSound(kind, delta, ledger, me, mid, s1, current, a);
      }
    }
  }

  lemma StepKeepsInv(kind: Kind, delta: nat, ledger: Ledger, me: nat, st: State, a: Answers)
    requires WellFormed(ledger) && Inv(kind, delta, ledger, me, st)
    ensures Advances(kind, delta, ledger, me, st, Step(kind, delta, ledger, me, st, a))
  {
    if a.current.Some? {
      FetchingAdvances(kind, delta, ledger, me, st, a.current.value, a);
    }
  }

  lemma {:induction false} RunKeepsInv(kind: Kind, delta: nat, ledger: Ledger, me: nat, st: State,
                                       answers: seq<Answers>)
    requires WellFormed(ledger) && Inv(kind, delta, ledger, me, st)
    ensures Advances(kind, delta, ledger, me, st, Run(kind, delta, ledger, me, st, answers))
    decreases |answers|
  {
    if answers != [] {
      StepKeepsInv(kind, delta, ledger, me, st, answers[0]);
      RunKeepsInv(kind, delta, ledger, me, Step(kind, delta, ledger, me, st, answers[0]), answers[1..]);
    }
  }

  // ---------------------------------------------------------------------------------------
  // What is fetched
  // ---------------------------------------------------------------------------------------

  /** An ETH sync has fetched every block after the earliest up to the latest exactly once, and no other. */
  lemma EthFetchesEachBlockOnce(delta: nat, ledger: Ledger, me: nat, answers: seq<Answers>, b: nat)
    requires WellFormed(ledger) && b > 0
    ensures var st := Run(EthTraces, delta, ledger, me, START, answers);
            Times(st.windows, b)
            == if st.saved.Some? && st.saved.value.earliest < b <= st.saved.value.latest then 1 else 0
  {
    RunKeepsInv(EthTraces, delta, ledger, me, START, answers);
  }

  /** A finished ETH sync has stored every trace of the address in every block but the genesis block. */
  lemma EthStoresEveryTrace(delta: nat, ledger: Ledger, me: nat, answers: seq<Answers>, t: Item)
    requires WellFormed(ledger)
    ensures var st := Run(EthTraces, delta, ledger, me, START, answers);
            st.saved.Some? && st.saved.value.earliest == 0 && 0 < t.block <= st.saved.value.latest ==>
              (t in st.saved.value.items <==> t in ledger(t.block) && (t.from == me || t.to == me))
  {
    RunKeepsInv(EthTraces, delta, ledger, me, START, answers);
  }

  /** An event sync never fetches a block twice, and skips exactly the blocks its backward steps started from. */
  lemma Erc20SkipsExactlyTheStarts(delta: nat, ledger: Ledger, me: nat, answers: seq<Answers>, b: nat)
    requires WellFormed(ledger) && b > 0
    ensures var st := Run(Erc20Events, delta, ledger, me, START, answers);
            Times(st.windows, b)
            == if st.saved.Some? && st.saved.value.earliest < b <= st.saved.value.latest && b !in st.starts
               then 1 else 0
  {
    RunKeepsInv(Erc20Events, delta, ledger, me, START, answers);
  }

  lemma MulLe(a: int, b: int, d: nat)
    requires a <= b
    ensures a * d <= b * d
  {
  }

  lemma DivBounds(x: nat, d: nat)
    requires d > 0
    ensures x == x / d * d + x % d
  {
  }

  lemma QuotientAllUnique(x: nat, d: nat, q: nat, r: nat)
    requires d > 0 && x == q * d + r && r < d
    ensures q == x / d && r == x % d
  {
    DivBounds(x, d);
    if q < x / d {
      MulLe(q + 1, x / d, d);
    }
    if x / d < q {
      MulLe(x / d + 1, q, d);
    }
  }

  /** The blocks that the backward steps started from lie a multiple of delta + 1 below the first one. */
  lemma StartsAreMultiples(delta: nat, starts: seq<nat>, s: Saved, b: nat)
    requires Descends(delta, starts, s) && starts != [] && s.earliest == 0
    requires 0 < b <= starts[0]
    ensures b in starts <==> (starts[0] - b) % (delta + 1) == 0
  {
    var s0, d := starts[0], delta + 1;
    if b in starts {
      var i :| 0 <= i < |starts| && starts[i] == b;
      QuotientAllUnique(s0 - b, d, i, 0);
    }
    if (s0 - b) % d == 0 {
      var i := (s0 - b) / d;
      DivBounds(s0 - b, d);
      if |starts| <= i {
        MulLe(|starts|, i, d);
      }
      assert starts[i] == Down(delta, s0, i);
    }
  }

  /** The iteration starts a sync that has not started: it takes the first backward step. */
  predicate Starts(kind: Kind, a: Answers) {
    a.current.Some? && a.current.value > 0 && (kind.EthTraces? ==> a.loads(0)) && a.backFrom && a.backTo
  }

  /** The current block of the first iteration that starts the sync. */
  function FirstStart(kind: Kind, answers: seq<Answers>): Option<nat> {
    if answers == [] then None
    else if Starts(kind, answers[0]) then answers[0].current
    else FirstStart(kind, answers[1..])
  }

  lemma HasFirst(items: seq<Item>)
    ensures items == [] || items[0] in items
  {
  }

  lemma NothingIsVisited(kind: Kind, a: Answers)
    requires Arranges(kind, a)
    ensures a.arrange([]) == []
  {
    HasFirst(a.arrange([]));
    assert Arranged(kind, [], a.arrange([]));
  }

  lemma FirstStep(kind: Kind, delta: nat, ledger: Ledger, me: nat, a: Answers)
    requires Arranges(kind, a)
    ensures var st := Step(kind, delta, ledger, me, START, a);
            if Starts(kind, a) then st.saved.Some? && st.starts == [a.current.value] else st == START
  {
    if a.current.Some? && a.current.value == 0 {
      NothingIsVisited(kind, a);
    }
  }

  lemma {:induction false} FirstStartStays(kind: Kind, delta: nat, ledger: Ledger, me: nat, st: State,
                                           answers: seq<Answers>)
    requires st.saved.Some? && st.starts != []
    ensures var st' := Run(kind, delta, ledger, me, st, answers); st'.saved.Some? && st.starts <= st'.starts
    decreases |answers|
  {
    if answers != [] {
      FirstStartStays(kind, delta, ledger, me, Step(kind, delta, ledger, me, st, answers[0]), answers[1..]);
    }
  }

  /** A sync starts with the first iteration whose backward queries succeed, from the block that is current then. */
  lemma {:induction false} SyncStartsAt(kind: Kind, delta: nat, ledger: Ledger, me: nat, answers: seq<Answers>)
    requires forall a :: a in answers ==> Arranges(kind, a)
    ensures var st := Run(kind, delta, ledger, me, START, answers);
            match FirstStart(kind, answers)
            case None => st == START
            case Some(first) => st.saved.Some? && st.starts != [] && st.starts[0] == first
    decreases |answers|
  {
    if answers != [] {
      FirstStep(kind, delta, ledger, me, answers[0]);
      if Starts(kind, answers[0]) {
        FirstStartStays(kind, delta, ledger, me, Step(kind, delta, ledger, me, START, answers[0]), answers[1..]);
      } else {
        SyncStartsAt(kind, delta, ledger, me, answers[1..]);
      }
    }
  }

  /** The block lies a multiple of delta + 1 below the block from which the sync started. */
  predicate IsMissed(delta: nat, first: nat, b: nat) {
    b <= first && (first - b) % (delta + 1) == 0
  }

  /**
   Once an event sync has reached block 0, it has missed exactly the blocks that lie a multiple of
   delta + 1 below the block from which it started.
   */
  lemma Erc20MissesIff(delta: nat, ledger: Ledger, me: nat, answers: seq<Answers>, b: nat)
    requires WellFormed(ledger) && b > 0
    requires forall a :: a in answers ==> Arranges(Erc20Events, a)
    ensures var st := Run(Erc20Events, delta, ledger, me, START, answers);
            st.saved.Some? && st.saved.value.earliest == 0 && b <= st.saved.value.latest ==>
              var first := FirstStart(Erc20Events, answers);
              first.Some? && (Times(st.windows, b) == 0 <==> IsMissed(delta, first.value, b))
  {
    RunKeepsInv(Erc20Events, delta, ledger, me, START, answers);
    SyncStartsAt(Erc20Events, delta, ledger, me, answers);
    var st := Run(Erc20Events, delta, ledger, me, START, answers);
    if st.saved.Some? && st.saved.value.earliest == 0 {
      StartsAreLow(delta, st.starts, st.saved.value);
      if b <= st.starts[0] {
        StartsAreMultiples(delta, st.starts, st.saved.value, b);
      }
    }
  }

  /** An instance: the sync starts at block 1 and is finished at once, without block 1. */
  lemma Erc20MissesBlockOne(ledger: Ledger, me: nat, a: Answers)
    requires a.current == Some(1) && a.backFrom && a.backTo
    ensures var st := Run(Erc20Events, ERC20_DELTA, ledger, me, START, [a]);
            && st.saved.Some? && st.saved.value.earliest == 0 && st.saved.value.latest == 1
            && st.starts == [1] && Times(st.windows, 1) == 0
  {
    var st := Step(Erc20Events, ERC20_DELTA, ledger, me, START, a);
    assert st.windows == [Window(0, 0)];
    assert Times([Window(0, 0)][..0], 1) == 0;
    assert Run(Erc20Events, ERC20_DELTA, ledger, me, START, [a])
        == Run(Erc20Events, ERC20_DELTA, ledger, me, st, [a][1..]);
  }

  /**
   The backward phase from block s0 takes at most s0 / (delta + 1) successful steps, rounded up, and
   it is over exactly when it has taken them all.
   */
  lemma BackwardPhaseEnds(kind: Kind, delta: nat, ledger: Ledger, me: nat, answers: seq<Answers>)
    requires WellFormed(ledger)
    requires forall a :: a in answers ==> Arranges(kind, a)
    ensures var st := Run(kind, delta, ledger, me, START, answers);
            var first := FirstStart(kind, answers);
            first.Some? ==>
              var steps := (first.value + delta) / (delta + 1);
              st.saved.Some? && |st.starts| <= steps && (st.saved.value.earliest == 0 <==> |st.starts| == steps)
  {
    RunKeepsInv(kind, delta, ledger, me, START, answers);
    SyncStartsAt(kind, delta, ledger, me, answers);
    var st := Run(kind, delta, ledger, me, START, answers);
    if st.starts != [] {
      var n, s0 := |st.starts|, st.starts[0];
      assert st.starts[n - 1] == Down(delta, s0, n - 1);
      StepsDown(delta, s0, n);
    }
  }

  /** How many steps lead from a block down to 0. */
  lemma StepsDown(delta: nat, s0: nat, n: nat)
    requires n > 0 && Down(delta, s0, n - 1) > 0
    ensures n <= (s0 + delta) / (delta + 1)
    ensures Down(delta, s0, n) == 0 <==> n == (s0 + delta) / (delta + 1)
  {
    CeilingIs(s0, n, delta + 1);
  }

  /** The backward queries of the iteration succeed, if it makes any. */
  predicate Succeeds(kind: Kind, a: Answers) {
    a.current.Some? && (kind.EthTraces? ==> a.loads(0)) && a.backFrom && a.backTo
  }

  /**
   The ends after an iteration on a stored state. Without the block number or the history nothing
   happens. A failing backward query stops the iteration, and a failing forward query leaves the latest
   block where it was.
   */
  lemma EndsAfterStep(kind: Kind, delta: nat, ledger: Ledger, me: nat, st: State, a: Answers)
    requires st.saved.Some?
    ensures var s := st.saved.value;
            var st' := Step(kind, delta, ledger, me, st, a);
            && st'.saved.Some?
            && var s' := st'.saved.value;
               if a.current.None? || (kind.EthTraces? && !a.loads(0)) || (s.earliest > 0 && !(a.backFrom && a.backTo))
               then st' == st
               else
                 && s'.earliest == (if s.earliest > delta then s.earliest - delta - 1 else 0)
                 && s'.latest == (if a.current.value > s.latest && a.aheadFrom && a.aheadTo then a.current.value
                                  else s.latest)
                 && |st'.starts| == |st.starts| + (if s.earliest > 0 then 1 else 0)
  {
  }

  /** The first iteration that stores something: it starts at the current block. */
  lemma EndsAfterStart(kind: Kind, delta: nat, ledger: Ledger, me: nat, a: Answers)
    requires Starts(kind, a)
    ensures var c := a.current.value;
            var st' := Step(kind, delta, ledger, me, START, a);
            && st'.saved.Some? && st'.saved.value.latest == c && |st'.starts| == 1
            && st'.saved.value.earliest == (if c > delta then c - delta - 1 else 0)
  {
  }

  /** How many of the iterations have successful backward queries. */
  function SuccessCount(kind: Kind, answers: seq<Answers>): nat {
    if answers == [] then 0
    else (if Succeeds(kind, answers[0]) then 1 else 0) + SuccessCount(kind, answers[1..])
  }

  /** How many of them there are from the first start on. */
  function Successes(kind: Kind, answers: seq<Answers>): nat {
    if answers == [] then 0
    else if Starts(kind, answers[0]) then SuccessCount(kind, answers)
    else Successes(kind, answers[1..])
  }

  /** Every successful iteration steps back, until block 0 is reached. */
  lemma {:induction false} EverySuccessStepsBack(kind: Kind, delta: nat, ledger: Ledger, me: nat, st: State,
                                                 answers: seq<Answers>)
    requires st.saved.Some?
    ensures var st' := Run(kind, delta, ledger, me, st, answers);
            && st'.saved.Some? && |st.starts| <= |st'.starts|
            && (st'.saved.value.earliest > 0 ==> |st'.starts| == |st.starts| + SuccessCount(kind, answers))
            && |st'.starts| <= |st.starts| + SuccessCount(kind, answers)
    decreases |answers|
  {
    if answers != [] {
      var next := Step(kind, delta, ledger, me, st, answers[0]);
      EndsAfterStep(kind, delta, ledger, me, st, answers[0]);
      EverySuccessStepsBack(kind, delta, ledger, me, next, answers[1..]);
      if next.saved.value.earliest == 0 {
        StaysAtZero(kind, delta, ledger, me, next, answers[1..]);
      }
    }
  }

  lemma {:induction false} StaysAtZero(kind: Kind, delta: nat, ledger: Ledger, me: nat, st: State,
                                       answers: seq<Answers>)
    requires st.saved.Some? && st.saved.value.earliest == 0
    ensures var st' := Run(kind, delta, ledger, me, st, answers); st'.saved.Some? && st'.saved.value.earliest == 0
    decreases |answers|
  {
    if answers != [] {
      EndsAfterStep(kind, delta, ledger, me, st, answers[0]);
      StaysAtZero(kind, delta, ledger, me, Step(kind, delta, ledger, me, st, answers[0]), answers[1..]);
    }
  }

  lemma {:induction false} SuccessesCount(kind: Kind, delta: nat, ledger: Ledger, me: nat, answers: seq<Answers>)
    requires forall a :: a in answers ==> Arranges(kind, a)
    ensures var st := Run(kind, delta, ledger, me, START, answers);
            st.saved.Some? ==>
              && |st.starts| <= Successes(kind, answers)
              && (st.saved.value.earliest > 0 ==> |st.starts| == Successes(kind, answers))
    decreases |answers|
  {
    if answers != [] {
      FirstStep(kind, delta, ledger, me, answers[0]);
      if Starts(kind, answers[0]) {
        var next := Step(kind, delta, ledger, me, START, answers[0]);
        EverySuccessStepsBack(kind, delta, ledger, me, next, answers[1..]);
        if next.saved.value.earliest == 0 {
          StaysAtZero(kind, delta, ledger, me, next, answers[1..]);
        }
      } else {
        SuccessesCount(kind, delta, ledger, me, answers[1..]);
      }
    }
  }

  /**
   A sync that starts at some block reaches block 0 exactly when first / (delta + 1) iterations, rounded up,
   have had successful backward queries, counted from the start: a condition on the answers alone.
   */
  lemma SyncEndsIff(kind: Kind, delta: nat, ledger: Ledger, me: nat, answers: seq<Answers>)
    requires WellFormed(ledger)
    requires forall a :: a in answers ==> Arranges(kind, a)
    ensures var st := Run(kind, delta, ledger, me, START, answers);
            && (st.saved.Some? <==> FirstStart(kind, answers).Some?)
            && (st.saved.Some? ==> (st.saved.value.earliest == 0 <==> IsThrough(kind, delta, answers)))
  {
    SyncStartsAt(kind, delta, ledger, me, answers);
    BackwardPhaseEnds(kind, delta, ledger, me, answers);
    SuccessesCount(kind, delta, ledger, me, answers);
    FirstStartHas(kind, answers);
  }

  /** The sync has started, and since then had enough successful backward queries. */
  predicate IsThrough(kind: Kind, delta: nat, answers: seq<Answers>) {
    var first := FirstStart(kind, answers);
    first.Some? && Successes(kind, answers) >= (first.value + delta) / (delta + 1)
  }

  lemma {:induction false} FirstStartHas(kind: Kind, answers: seq<Answers>)
    ensures FirstStart(kind, answers).Some? ==> FirstStart(kind, answers).value > 0
  {
    if answers != [] {
      FirstStartHas(kind, answers[1..]);
    }
  }

  lemma CeilingIs(s0: nat, n: nat, d: nat)
    requires d > 0 && n > 0 && (n - 1) * d < s0
    ensures n <= (s0 + d - 1) / d
    ensures s0 <= n * d <==> n == (s0 + d - 1) / d
  {
    var q := (s0 + d - 1) / d;
    DivBounds(s0 + d - 1, d);
    if q < n {
      MulLe(q, n - 1, d);
    }
    if n < q {
      MulLe(n + 1, q, d);
    }
  }

  // ---------------------------------------------------------------------------------------
  // The history
  // ---------------------------------------------------------------------------------------

  /** No id is in the history twice, and every one belongs to a stored item that is shown. */
  ghost predicate HistoryInv(kind: Kind, st: State) {
    && AllUnique(st.history)
    && forall t :: t in st.history ==> st.saved.Some? && t in st.saved.value.items && IsShown(kind, t)
  }

  lemma {:induction false} ExtendIs(kind: Kind, history: seq<Item>, visited: seq<Item>, i: nat, a: Answers)
    requires AllUnique(history)
    ensures var r := Extend(kind, history, visited, i, a);
            && AllUnique(r) && history <= r
            && (forall t :: t in r ==> t in history || (t in visited && IsShown(kind, t) && a.lookup(t)))
    decreases |visited| - i
  {
    if i < |visited| {
      var t := visited[i];
      ExtendIs(kind, history, visited, i + 1, a);
      if t !in history {
        assert AllUnique(history + [t]);
        ExtendIs(kind, history + [t], visited, i + 1, a);
      }
    }
  }

  /** Every load and every write of the history succeeds. */
  ghost predicate KeepsFiles(a: Answers) {
    (forall i :: a.loads(i)) && (forall n :: a.saves(n))
  }

  /** If loads and writes succeed, exactly the visited items are added that are shown and can be looked up. */
  lemma {:induction false} ExtendAddsExactly(kind: Kind, history: seq<Item>, visited: seq<Item>, i: nat, a: Answers,
                                             t: Item)
    requires KeepsFiles(a) && i <= |visited|
    ensures t in Extend(kind, history, visited, i, a)
       <==> t in history || (t in visited[i..] && IsShown(kind, t) && a.lookup(t))
    decreases |visited| - i
  {
    if i < |visited| {
      var h := visited[i];
      assert t in visited[i..] <==> t == h || t in visited[i + 1..];
      var next := if h in history || !IsShown(kind, h) || !a.lookup(h) then history else history + [h];
      ExtendAddsExactly(kind, next, visited, i + 1, a, t);
    }
  }

  /** A failing write stops the loop: what was written before stays, and nothing is added after it. */
  lemma {:induction false} ExtendStopsAtFailure(kind: Kind, history: seq<Item>, visited: seq<Item>, i: nat, a: Answers)
    ensures var r := Extend(kind, history, visited, i, a);
            var all := Extend(kind, history, visited, i, a.(saves := n => true));
            && history <= r <= all
            && (forall n :: |history| < n <= |r| ==> a.saves(n))
            && (r == all || !a.saves(|r| + 1))
    decreases |visited| - i
  {
    if i < |visited| && !(kind.Erc20Events? && !a.loads(i)) {
      var h := visited[i];
      if h in history || !IsShown(kind, h) || !a.lookup(h) {
        ExtendStopsAtFailure(kind, history, visited, i + 1, a);
      } else {
        ExtendStopsAtFailure(kind, history + [h], visited, i + 1, a);
      }
    }
  }

  /** So does a failing load, before the item that it is for. */
  lemma {:induction false} ExtendStopsAtLoad(kind: Kind, history: seq<Item>, visited: seq<Item>, i: nat, k: nat,
                                             a: Answers)
    requires i <= k < |visited| && kind.Erc20Events? && !a.loads(k) && forall j :: i <= j < k ==> a.loads(j)
    ensures Extend(kind, history, visited, i, a) == Extend(kind, history, visited[..k], i, a)
    decreases k - i
  {
    if i < k {
      var h := visited[i];
      assert visited[..k][i] == h;
      ExtendStopsAtLoad(kind, history, visited, i + 1, k, a);
      ExtendStopsAtLoad(kind, history + [h], visited, i + 1, k, a);
    }
  }

  /** Nothing goes wrong in the iteration. */
  ghost predicate Unfailing(a: Answers) {
    && a.current.Some? && a.backFrom && a.backTo && a.aheadFrom && a.aheadTo
    && KeepsFiles(a) && (forall t :: a.lookup(t))
  }

  /** What the iteration visits is what it has stored, if it has stored anything. */
  lemma StepVisits(kind: Kind, delta: nat, ledger: Ledger, me: nat, st: State, a: Answers)
    requires Arranges(kind, a)
    ensures var st' := Step(kind, delta, ledger, me, st, a);
            || st'.history == st.history
            || (st'.saved.Some? && st'.history == Extend(kind, st.history, a.arrange(st'.saved.value.items), 0, a))
    ensures var st' := Step(kind, delta, ledger, me, st, a);
            Unfailing(a) && st'.saved.Some? ==>
              st'.history == Extend(kind, st.history, a.arrange(st'.saved.value.items), 0, a)
    ensures var st' := Step(kind, delta, ledger, me, st, a);
            st.saved.Some? ==> st'.saved.Some? && st.saved.value.items <= st'.saved.value.items
  {
    NothingIsVisited(kind, a);
  }

  lemma StepKeepsHistory(kind: Kind, delta: nat, ledger: Ledger, me: nat, st: State, a: Answers)
    requires HistoryInv(kind, st) && Arranges(kind, a)
    ensures var st' := Step(kind, delta, ledger, me, st, a); HistoryInv(kind, st') && st.history <= st'.history
  {
    var st' := Step(kind, delta, ledger, me, st, a);
    StepVisits(kind, delta, ledger, me, st, a);
    if st'.history != st.history {
      var items := st'.saved.value.items;
      assert Arranged(kind, items, a.arrange(items));
      ExtendIs(kind, st.history, a.arrange(items), 0, a);
    }
  }

  /**
   Over any run of successful and failing iterations and restarts, no id enters the history twice, none
   leaves it, and each belongs to a stored item.
   */
  lemma {:induction false} RunKeepsHistory(kind: Kind, delta: nat, ledger: Ledger, me: nat, st: State,
                                           answers: seq<Answers>)
    requires HistoryInv(kind, st) && forall a :: a in answers ==> Arranges(kind, a)
    ensures var st' := Run(kind, delta, ledger, me, st, answers); HistoryInv(kind, st') && st.history <= st'.history
    decreases |answers|
  {
    if answers != [] {
      StepKeepsHistory(kind, delta, ledger, me, st, answers[0]);
      RunKeepsHistory(kind, delta, ledger, me, Step(kind, delta, ledger, me, st, answers[0]), answers[1..]);
    }
  }

  /** An iteration in which nothing fails adds what it visits: every trace, and the last event of every transaction. */
  lemma UnfailingStepRecords(kind: Kind, delta: nat, ledger: Ledger, me: nat, st: State, a: Answers, t: Item)
    requires Unfailing(a) && Arranges(kind, a)
    ensures var st' := Step(kind, delta, ledger, me, st, a);
            st'.saved.Some? && IsVisited(kind, st'.saved.value.items, t) && IsShown(kind, t) ==> t in st'.history
  {
    var st' := Step(kind, delta, ledger, me, st, a);
    StepVisits(kind, delta, ledger, me, st, a);
    if st'.saved.Some? && IsVisited(kind, st'.saved.value.items, t) && IsShown(kind, t) {
      var items := st'.saved.value.items;
      var visited := a.arrange(items);
      assert Arranged(kind, items, visited);
      assert visited[0..] == visited;
      ExtendAddsExactly(kind, st.history, visited, 0, a, t);
    }
  }

  /**
   After any run and one more iteration in which nothing fails, the history of a finished ETH sync shows
   exactly the calls of the address in every block but the genesis block.
   */
  lemma FinishedEthHistoryIsComplete(delta: nat, ledger: Ledger, me: nat, answers: seq<Answers>, last: Answers, t: Item)
    requires WellFormed(ledger) && Unfailing(last) && Arranges(EthTraces, last)
    requires forall a :: a in answers ==> Arranges(EthTraces, a)
    ensures var st := Step(EthTraces, delta, ledger, me, Run(EthTraces, delta, ledger, me, START, answers), last);
            st.saved.Some? && st.saved.value.earliest == 0 && 0 < t.block <= st.saved.value.latest ==>
              (t in st.history <==> t.isCall && t in ledger(t.block) && (t.from == me || t.to == me))
  {
    var before := Run(EthTraces, delta, ledger, me, START, answers);
    RunKeepsInv(EthTraces, delta, ledger, me, START, answers);
    StepKeepsInv(EthTraces, delta, ledger, me, before, last);
    RunKeepsHistory(EthTraces, delta, ledger, me, START, answers);
    StepKeepsHistory(EthTraces, delta, ledger, me, before, last);
    UnfailingStepRecords(EthTraces, delta, ledger, me, before, last, t);
  }

  /** After an iteration in which nothing fails, the latest block is no lower than the current one. */
  lemma LatestIsReached(kind: Kind, delta: nat, ledger: Ledger, me: nat, answers: seq<Answers>, last: Answers)
    requires WellFormed(ledger) && Unfailing(last)
    requires forall a :: a in answers + [last] ==> Arranges(kind, a)
    ensures var st := Run(kind, delta, ledger, me, START, answers + [last]);
            st.saved.Some? ==> last.current.value <= st.saved.value.latest
  {
    var before := Run(kind, delta, ledger, me, START, answers);
    RunOfLast(kind, delta, ledger, me, START, answers, last);
    forall a | a in answers ensures Arranges(kind, a) {
      assert a in answers + [last];
    }
    assert last in answers + [last];
    if before.saved.Some? {
      EndsAfterStep(kind, delta, ledger, me, before, last);
    } else {
      SyncStartsAt(kind, delta, ledger, me, answers);
      FirstStep(kind, delta, ledger, me, last);
      if Starts(kind, last) {
        EndsAfterStart(kind, delta, ledger, me, last);
      }
    }
  }

  /**
   So after enough successful iterations, and a last one in which nothing fails, the history of an ETH
   address shows exactly its calls in all blocks but the genesis block, up to the current one.
   */
  lemma EthHistoryIsComplete(delta: nat, ledger: Ledger, me: nat, answers: seq<Answers>, last: Answers, t: Item)
    requires WellFormed(ledger) && Unfailing(last)
    requires forall a :: a in answers + [last] ==> Arranges(EthTraces, a)
    requires IsThrough(EthTraces, delta, answers + [last])
    requires 0 < t.block <= last.current.value
    ensures t in Run(EthTraces, delta, ledger, me, START, answers + [last]).history
       <==> t.isCall && t in ledger(t.block) && (t.from == me || t.to == me)
  {
    forall a | a in answers ensures Arranges(EthTraces, a) {
      assert a in answers + [last];
    }
    assert last in answers + [last];
    SyncEndsIff(EthTraces, delta, ledger, me, answers + [last]);
    LatestIsReached(EthTraces, delta, ledger, me, answers, last);
    RunOfLast(EthTraces, delta, ledger, me, START, answers, last);
    FinishedEthHistoryIsComplete(delta, ledger, me, answers, last, t);
  }

  // ---------------------------------------------------------------------------------------
  // Which events are shown
  // ---------------------------------------------------------------------------------------

  function OnBlock(items: seq<Item>, b: nat): seq<Item> {
    if items == [] then []
    else (if items[0].block == b then [items[0]] else []) + OnBlock(items[1..], b)
  }

  lemma {:induction false} OnBlockHas(items: seq<Item>, b: nat, t: Item)
    ensures t in OnBlock(items, b) <==> t in items && t.block == b
  {
    if items != [] {
      OnBlockHas(items[1..], b, t);
      assert t in items <==> t == items[0] || t in items[1..];
    }
  }

  lemma {:induction false} OnBlockConcat(xs: seq<Item>, ys: seq<Item>, b: nat)
    ensures OnBlock(xs + ys, b) == OnBlock(xs, b) + OnBlock(ys, b)
  {
    if xs == [] {
      assert xs + ys == ys;
    } else {
      assert (xs + ys)[1..] == xs[1..] + ys;
      OnBlockConcat(xs[1..], ys, b);
      var first := if xs[0].block == b then [xs[0]] else [];
      assert first + (OnBlock(xs[1..], b) + OnBlock(ys, b)) == (first + OnBlock(xs[1..], b)) + OnBlock(ys, b);
    }
  }

  /** Of items that are all in one block, all or none are in a block. */
  lemma {:induction false} OnBlockOfOne(items: seq<Item>, at: nat, b: nat)
    requires forall t :: t in items ==> t.block == at
    ensures OnBlock(items, b) == if at == b then items else []
  {
    if items != [] {
      assert items[0] in items;
      OnBlockOfOne(items[1..], at, b);
      assert items == [items[0]] + items[1..];
    }
  }

  lemma FilterOnBlock(ledger: Ledger, me: nat, asSender: bool, at: nat, b: nat)
    requires WellFormed(ledger)
    ensures OnBlock(Filter(ledger(at), me, asSender), b) == if at == b then Filter(ledger(b), me, asSender) else []
  {
    var items := Filter(ledger(at), me, asSender);
    forall t | t in items ensures t.block == at {
      FilterIs(ledger(at), me, asSender, t);
    }
    OnBlockOfOne(items, at, b);
  }

  lemma JoinOne(xs: seq<Item>, ys: seq<Item>, both: seq<Item>)
    requires (xs == both && ys == []) || (xs == [] && ys == both)
    ensures xs + ys == both
  {
  }

  lemma QueryNext(ledger: Ledger, me: nat, asSender: bool, lo: nat, hi: nat, b: nat, rest: seq<Item>)
    requires WellFormed(ledger) && lo <= hi
    requires OnBlock(rest, b) == if hi == 0 then [] else QueryOn(ledger, me, asSender, lo, hi - 1, b)
    ensures OnBlock(rest + Filter(ledger(hi), me, asSender), b) == QueryOn(ledger, me, asSender, lo, hi, b)
  {
    var last := Filter(ledger(hi), me, asSender);
    OnBlockConcat(rest, last, b);
    FilterOnBlock(ledger, me, asSender, hi, b);
    JoinOne(OnBlock(rest, b), OnBlock(last, b), QueryOn(ledger, me, asSender, lo, hi, b));
  }

  /** The part of a query that is on a block. */
  function QueryOn(ledger: Ledger, me: nat, asSender: bool, lo: nat, hi: nat, b: nat): seq<Item> {
    if lo <= b <= hi then Filter(ledger(b), me, asSender) else []
  }

  lemma {:induction false} OnBlockQuery(ledger: Ledger, me: nat, asSender: bool, lo: nat, hi: nat, b: nat)
    requires WellFormed(ledger)
    ensures OnBlock(Query(ledger, me, asSender, lo, hi), b) == QueryOn(ledger, me, asSender, lo, hi, b)
    decreases hi
  {
    if lo <= hi {
      var rest := [];
      if hi > 0 {
        OnBlockQuery(ledger, me, asSender, lo, hi - 1, b);
        rest := Query(ledger, me, asSender, lo, hi - 1);
      }
      QueryNext(ledger, me, asSender, lo, hi, b, rest);
    }
  }

  /** What a window with the block fetches from it: as the sender, then as the receiver. */
  function FetchedOf(ledger: Ledger, me: nat, b: nat): seq<Item> {
    Filter(ledger(b), me, true) + Filter(ledger(b), me, false)
  }

  lemma OnBlockFetch(ledger: Ledger, me: nat, w: Window, b: nat)
    requires WellFormed(ledger)
    ensures OnBlock(Fetch(ledger, me, w), b) == if w.Has(b) then FetchedOf(ledger, me, b) else []
  {
    OnBlockConcat(Query(ledger, me, true, w.lo, w.hi), Query(ledger, me, false, w.lo, w.hi), b);
    OnBlockQuery(ledger, me, true, w.lo, w.hi, b);
    OnBlockQuery(ledger, me, false, w.lo, w.hi, b);
  }

  /** The stored items of every block but the genesis block are what one window fetched from it, in that order. */
  ghost predicate Stores(ledger: Ledger, me: nat, windows: seq<Window>, s: Saved) {
    forall b: nat :: b > 0 ==>
      OnBlock(s.items, b) == if Times(windows, b) > 0 then FetchedOf(ledger, me, b) else []
  }

  ghost predicate StoresInv(ledger: Ledger, me: nat, st: State) {
    if st.saved.Some? then Stores(ledger, me, st.windows, st.saved.value) else st.windows == []
  }

  lemma FetchStores(ledger: Ledger, me: nat, windows: seq<Window>, s: Saved, w: Window, s': Saved)
    requires WellFormed(ledger) && Stores(ledger, me, windows, s)
    requires s'.items == s.items + Fetch(ledger, me, w)
    requires FetchesOnce(windows + [w])
    ensures Stores(ledger, me, windows + [w], s')
  {
    forall b: nat | b > 0
      ensures OnBlock(s'.items, b) == if Times(windows + [w], b) > 0 then FetchedOf(ledger, me, b) else []
    {
      TimesOfNext(windows, w, b);
      OnBlockConcat(s.items, Fetch(ledger, me, w), b);
      OnBlockFetch(ledger, me, w, b);
      var xs, ys := OnBlock(s.items, b), OnBlock(Fetch(ledger, me, w), b);
      JoinOne(xs, ys, if Times(windows + [w], b) > 0 then FetchedOf(ledger, me, b) else []);
    }
  }

  /** No block but the genesis block is fetched twice. */
  ghost predicate FetchesOnce(windows: seq<Window>) {
    forall b: nat :: b > 0 ==> Times(windows, b) <= 1
  }

  lemma InvFetchesOnce(kind: Kind, delta: nat, ledger: Ledger, me: nat, st: State)
    requires Inv(kind, delta, ledger, me, st)
    ensures FetchesOnce(st.windows)
  {
  }

  lemma BackStores(kind: Kind, delta: nat, ledger: Ledger, me: nat, st: State, s: Saved, a: Answers)
    requires WellFormed(ledger) && Stores(ledger, me, st.windows, s)
    requires Back(kind, delta, ledger, me, st, s, a).Some?
    requires FetchesOnce(Back(kind, delta, ledger, me, st, s, a).value.0.windows)
    ensures var (mid, s1) := Back(kind, delta, ledger, me, st, s, a).value; Stores(ledger, me, mid.windows, s1)
  {
    if s.earliest > 0 {
      var (mid, s1) := Back(kind, delta, ledger, me, st, s, a).value;
      FetchStores(ledger, me, st.windows, s, BackWindow(kind, delta, s.earliest), s1);
    }
  }

  lemma AheadStores(ledger: Ledger, me: nat, st: State, s: Saved, current: nat, a: Answers)
    requires WellFormed(ledger) && Stores(ledger, me, st.windows, s)
    requires Ahead(ledger, me, st, s, current, a).Some?
    requires FetchesOnce(Ahead(ledger, me, st, s, current, a).value.0.windows)
    ensures var (full, s1) := Ahead(ledger, me, st, s, current, a).value; Stores(ledger, me, full.windows, s1)
  {
    if s.latest < current {
      var (full, s1) := Ahead(ledger, me, st, s, current, a).value;
      var w := Window(s.latest + 1, current);
      assert full.windows == st.windows + [w] && s1.items == s.items + Fetch(ledger, me, w);
      FetchStores(ledger, me, st.windows, s, w, s1);
    }
  }

  lemma StepKeepsStores(kind: Kind, delta: nat, ledger: Ledger, me: nat, st: State, a: Answers)
    requires WellFormed(ledger) && Inv(kind, delta, ledger, me, st) && StoresInv(ledger, me, st)
    ensures StoresInv(ledger, me, Step(kind, delta, ledger, me, st, a))
  {
    if a.current.Some? {
      var current := a.current.value;
      var s := Loaded(st, current);
      FetchingAdvances(kind, delta, ledger, me, st, current, a);
      if Back(kind, delta, ledger, me, st, s, a).Some? {
        var (mid, s1) := Back(kind, delta, ledger, me, st, s, a).value;
        InvFetchesOnce(kind, delta, ledger, me, mid);
        BackStores(kind, delta, ledger, me, st, s, a);
        var ahead := Ahead(ledger, me, mid, s1, current, a);
        if ahead.Some? {
          InvFetchesOnce(kind, delta, ledger, me, ahead.value.0);
          AheadStores(ledger, me, mid, s1, current, a);
        }
      }
    }
  }

  lemma {:induction false} RunKeepsStores(kind: Kind, delta: nat, ledger: Ledger, me: nat, st: State,
                                          answers: seq<Answers>)
    requires WellFormed(ledger) && Inv(kind, delta, ledger, me, st) && StoresInv(ledger, me, st)
    ensures StoresInv(ledger, me, Run(kind, delta, ledger, me, st, answers))
    decreases |answers|
  {
    if answers != [] {
      StepKeepsInv(kind, delta, ledger, me, st, answers[0]);
      StepKeepsStores(kind, delta, ledger, me, st, answers[0]);
      RunKeepsStores(kind, delta, ledger, me, Step(kind, delta, ledger, me, st, answers[0]), answers[1..]);
    }
  }

  /** A transaction is in one block. */
  ghost predicate SharesBlocks(ledger: Ledger) {
    forall b: nat, c: nat, x, y :: x in ledger(b) && y in ledger(c) && x.txHash == y.txHash ==> b == c
  }

  ghost predicate ShareBlocks(items: seq<Item>) {
    forall x, y :: x in items && y in items && x.txHash == y.txHash ==> x.block == y.block
  }

  /** The item at a position is the last one of its transaction. */
  ghost predicate IsLastAt(items: seq<Item>, k: nat) {
    k < |items| && forall j :: k < j < |items| ==> items[j].txHash != items[k].txHash
  }

  lemma VisitedAt(items: seq<Item>, t: Item)
    ensures IsVisited(Erc20Events, items, t) <==> exists k: nat :: IsLastAt(items, k) && items[k] == t
  {
    if IsVisited(Erc20Events, items, t) {
      var k :| 0 <= k < |items| && items[k] == t && forall j :: k < j < |items| ==> items[j].txHash != t.txHash;
      assert IsLastAt(items, k);
    }
  }

  lemma LastAtNext(first: Item, rest: seq<Item>, k: nat)
    ensures IsLastAt([first] + rest, k + 1) <==> IsLastAt(rest, k)
    ensures IsLastAt([first] + rest, 0) <==> forall y :: y in rest ==> y.txHash != first.txHash
  {
    var all := [first] + rest;
    assert all[0] == first && forall i :: 0 <= i < |rest| ==> all[i + 1] == rest[i];
    assert forall j :: 0 < j < |all| ==> all[j] == rest[j - 1];
  }

  lemma VisitedFirst(first: Item, rest: seq<Item>, t: Item)
    ensures IsVisited(Erc20Events, [first] + rest, t)
       <==> IsVisited(Erc20Events, rest, t) || (first == t && forall y :: y in rest ==> y.txHash != t.txHash)
  {
    var all := [first] + rest;
    VisitedAt(rest, t);
    VisitedAt(all, t);
    LastAtNext(first, rest, 0);
    if IsVisited(Erc20Events, rest, t) {
      var k: nat :| IsLastAt(rest, k) && rest[k] == t;
      LastAtNext(first, rest, k);
      assert all[k + 1] == t;
    }
    if IsVisited(Erc20Events, all, t) {
      var k: nat :| IsLastAt(all, k) && all[k] == t;
      if k > 0 {
        LastAtNext(first, rest, k - 1);
        assert rest[k - 1] == t;
      }
    }
  }

  /** Whether an event is the last one of its transaction is decided in its block. */
  lemma {:induction false} VisitedInBlock(items: seq<Item>, t: Item)
    requires ShareBlocks(items) && t in items
    ensures IsVisited(Erc20Events, items, t) <==> IsVisited(Erc20Events, OnBlock(items, t.block), t)
  {
    var first, rest := items[0], items[1..];
    assert items == [first] + rest;
    VisitedFirst(first, rest, t);
    var restOn := OnBlock(rest, t.block);
    forall y ensures y in restOn <==> y in rest && y.block == t.block {
      OnBlockHas(rest, t.block, y);
    }
    if t in rest {
      VisitedInBlock(rest, t);
    }
    if first.block == t.block {
      assert OnBlock(items, t.block) == [first] + restOn;
      VisitedFirst(first, restOn, t);
    } else {
      assert OnBlock(items, t.block) == restOn;
    }
  }

  lemma StoredShareBlocks(kind: Kind, delta: nat, ledger: Ledger, me: nat, st: State)
    requires WellFormed(ledger) && SharesBlocks(ledger) && Inv(kind, delta, ledger, me, st) && st.saved.Some?
    ensures ShareBlocks(st.saved.value.items)
  {
  }

  /** The event is the last one of its transaction that is fetched from its block. */
  ghost predicate IsLastFetched(ledger: Ledger, me: nat, t: Item) {
    IsVisited(Erc20Events, FetchedOf(ledger, me, t.block), t)
  }

  /** What is visited of the stored events is what the ledger says. */
  lemma VisitedIs(delta: nat, ledger: Ledger, me: nat, st: State, t: Item)
    requires WellFormed(ledger) && SharesBlocks(ledger) && t.block > 0
    requires Inv(Erc20Events, delta, ledger, me, st) && StoresInv(ledger, me, st) && st.saved.Some?
    ensures IsVisited(Erc20Events, st.saved.value.items, t)
       <==> Times(st.windows, t.block) > 0 && IsLastFetched(ledger, me, t)
  {
    var items := st.saved.value.items;
    StoredShareBlocks(Erc20Events, delta, ledger, me, st);
    OnBlockHas(items, t.block, t);
    if t in items {
      VisitedInBlock(items, t);
    }
  }

  /** Every event in the history is the last one of its transaction. */
  ghost predicate LastInv(ledger: Ledger, me: nat, st: State) {
    forall t :: t in st.history && t.block > 0 ==> IsLastFetched(ledger, me, t)
  }

  lemma StepKeepsLast(delta: nat, ledger: Ledger, me: nat, st: State, a: Answers)
    requires WellFormed(ledger) && SharesBlocks(ledger) && Arranges(Erc20Events, a)
    requires Inv(Erc20Events, delta, ledger, me, st) && StoresInv(ledger, me, st)
    requires HistoryInv(Erc20Events, st) && LastInv(ledger, me, st)
    ensures LastInv(ledger, me, Step(Erc20Events, delta, ledger, me, st, a))
  {
    var st' := Step(Erc20Events, delta, ledger, me, st, a);
    StepKeepsInv(Erc20Events, delta, ledger, me, st, a);
    StepKeepsStores(Erc20Events, delta, ledger, me, st, a);
    StepVisits(Erc20Events, delta, ledger, me, st, a);
    if st'.history != st.history {
      var items := st'.saved.value.items;
      assert Arranged(Erc20Events, items, a.arrange(items));
      ExtendIs(Erc20Events, st.history, a.arrange(items), 0, a);
      forall t | t in st'.history && t.block > 0 ensures IsLastFetched(ledger, me, t) {
        VisitedIs(delta, ledger, me, st', t);
      }
    }
  }

  /** Whatever fails, only the last event of a transaction that is fetched from its block enters the history. */
  lemma {:induction false} RunKeepsLast(delta: nat, ledger: Ledger, me: nat, st: State, answers: seq<Answers>)
    requires WellFormed(ledger) && SharesBlocks(ledger)
    requires forall a :: a in answers ==> Arranges(Erc20Events, a)
    requires Inv(Erc20Events, delta, ledger, me, st) && StoresInv(ledger, me, st)
    requires HistoryInv(Erc20Events, st) && LastInv(ledger, me, st)
    ensures LastInv(ledger, me, Run(Erc20Events, delta, ledger, me, st, answers))
    decreases |answers|
  {
    if answers != [] {
      var next := Step(Erc20Events, delta, ledger, me, st, answers[0]);
      StepKeepsInv(Erc20Events, delta, ledger, me, st, answers[0]);
      StepKeepsStores(Erc20Events, delta, ledger, me, st, answers[0]);
      StepKeepsHistory(Erc20Events, delta, ledger, me, st, answers[0]);
      StepKeepsLast(delta, ledger, me, st, answers[0]);
      RunKeepsLast(delta, ledger, me, next, answers[1..]);
    }
  }

  /**
   After any run and one more iteration in which nothing fails, the history of a finished event sync
   shows of blocks 1, ..., latest exactly the events in blocks that are not missed that are the last of
   their transaction: first come those that the address sent, then those that it received.
   */
  lemma FinishedErc20HistoryIsExact(delta: nat, ledger: Ledger, me: nat, answers: seq<Answers>, last: Answers, t: Item)
    requires WellFormed(ledger) && SharesBlocks(ledger) && Unfailing(last) && Arranges(Erc20Events, last)
    requires forall a :: a in answers ==> Arranges(Erc20Events, a)
    ensures var st := Run(Erc20Events, delta, ledger, me, START, answers + [last]);
            var first := FirstStart(Erc20Events, answers + [last]);
            st.saved.Some? && st.saved.value.earliest == 0 && 0 < t.block <= st.saved.value.latest ==>
              && first.Some?
              && (t in st.history <==> !IsMissed(delta, first.value, t.block) && IsLastFetched(ledger, me, t))
  {
    var all := answers + [last];
    var st := Run(Erc20Events, delta, ledger, me, START, all);
    RunKeepsInv(Erc20Events, delta, ledger, me, START, all);
    RunKeepsStores(Erc20Events, delta, ledger, me, START, all);
    RunKeepsHistory(Erc20Events, delta, ledger, me, START, all);
    RunKeepsLast(delta, ledger, me, START, all);
    RunOfLast(Erc20Events, delta, ledger, me, START, answers, last);
    UnfailingStepRecords(Erc20Events, delta, ledger, me, Run(Erc20Events, delta, ledger, me, START, answers), last, t);
    if st.saved.Some? && st.saved.value.earliest == 0 && 0 < t.block <= st.saved.value.latest {
      Erc20MissesIff(delta, ledger, me, all, t.block);
      VisitedIs(delta, ledger, me, st, t);
    }
  }

  /** So the same holds of the events up to the current block after enough successful iterations. */
  lemma Erc20HistoryIsExact(delta: nat, ledger: Ledger, me: nat, answers: seq<Answers>, last: Answers, t: Item)
    requires WellFormed(ledger) && SharesBlocks(ledger) && Unfailing(last)
    requires forall a :: a in answers + [last] ==> Arranges(Erc20Events, a)
    requires IsThrough(Erc20Events, delta, answers + [last])
    requires 0 < t.block <= last.current.value
    ensures t in Run(Erc20Events, delta, ledger, me, START, answers + [last]).history
       <==> && !IsMissed(delta, FirstStart(Erc20Events, answers + [last]).value, t.block)
            && IsLastFetched(ledger, me, t)
  {
    forall a | a in answers ensures Arranges(Erc20Events, a) {
      assert a in answers + [last];
    }
    assert last in answers + [last];
    SyncEndsIff(Erc20Events, delta, ledger, me, answers + [last]);
    LatestIsReached(Erc20Events, delta, ledger, me, answers, last);
    FinishedErc20HistoryIsExact(delta, ledger, me, answers, last, t);
  }

  lemma {:induction false} RunOfLast(kind: Kind, delta: nat, ledger: Ledger, me: nat, st: State, answers: seq<Answers>,
                                     last: Answers)
    ensures Run(kind, delta, ledger, me, st, answers + [last])
         == Step(kind, delta, ledger, me, Run(kind, delta, ledger, me, st, answers), last)
    decreases |answers|
  {
    var all := answers + [last];
    if answers == [] {
      assert all == [last] && all[1..] == [];
    } else {
      assert all[1..] == answers[1..] + [last];
      RunOfLast(kind, delta, ledger, me, Step(kind, delta, ledger, me, st, answers[0]), answers[1..], last);
    }
  }

  /** Of two events of a transaction that the address receives in a block without others, the first is not the last. */
  lemma TwoReceived(ledger: Ledger, me: nat, one: Item, two: Item)
    requires ledger(one.block) == [one, two] && one != two && one.txHash == two.txHash
    requires one.from != me && two.from != me && one.to == me && two.to == me
    ensures !IsLastFetched(ledger, me, one)
  {
    assert [one, two][..1] == [one] && [one][..0] == [];
    assert Filter([one], me, false) == [one] && Filter([one], me, true) == [];
    var fetched := FetchedOf(ledger, me, one.block);
    assert fetched == [one, two];
    assert fetched[1].txHash == one.txHash;
  }

  lemma EarlierIsLost(delta: nat, ledger: Ledger, me: nat, answers: seq<Answers>, t: Item)
    requires WellFormed(ledger) && SharesBlocks(ledger) && forall a :: a in answers ==> Arranges(Erc20Events, a)
    requires t.block > 0 && !IsLastFetched(ledger, me, t)
    ensures t !in Run(Erc20Events, delta, ledger, me, START, answers).history
  {
    RunKeepsLast(delta, ledger, me, START, answers);
  }

  function TwoEvents(b: nat): seq<Item> {
    if b == 2 then [Item(2, 8, 7, 0, false), Item(2, 9, 7, 0, false)] else []
  }

  /** An instance: of two events that address 7 receives in one transaction, the first never enters the history. */
  lemma FirstOfTwoEventsIsLost(delta: nat, answers: seq<Answers>)
    requires forall a :: a in answers ==> Arranges(Erc20Events, a)
    ensures Item(2, 8, 7, 0, false) !in Run(Erc20Events, delta, TwoEvents, 7, START, answers).history
  {
    var one, two := Item(2, 8, 7, 0, false), Item(2, 9, 7, 0, false);
    TwoReceived(TwoEvents, 7, one, two);
    EarlierIsLost(delta, TwoEvents, 7, answers, one);
  }
}
