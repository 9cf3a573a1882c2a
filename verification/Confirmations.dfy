/**
 Waiting until a transaction is confirmed, with a node that may fail, lag or change its mind: the
 receipt gives the block of the transaction, the chain must reach the required height, and then the
 receipt must still give the same block.

 What the node is asked and answers is a sequence of polls; the wait that has used up all of them
 goes on.
 */
module Confirmations {
  import opened Wrappers

  const U64_MAX := 0xFFFF_FFFF_FFFF_FFFF

  datatype ReceiptAnswer = ReceiptFailed | NoReceipt | Receipt(succeeded: bool, block: Option<nat>)

  /** One poll: whether the deadline has passed before it, and the node's answer to either question. */
  datatype Poll = Poll(late: bool, receipt: ReceiptAnswer, height: Option<nat>)

  datatype WaitError = Timeout | TransactionFailed | Overflow

  /** What one poll tells: it may leave the question open. */
  datatype Told = Open | Number(n: nat) | GaveUp(error: WaitError)

  function ReceiptTells(p: Poll): Told {
    if p.late then GaveUp(Timeout)
    else if !p.receipt.Receipt? then Open
    else if !p.receipt.succeeded then GaveUp(TransactionFailed)
    else if p.receipt.block.Some? then Number(p.receipt.block.value)
    else Open
  }

  function HeightTells(p: Poll, target: int): Told {
    if p.late then GaveUp(Timeout)
    else if p.height.Some? && p.height.value >= target then Number(p.height.value)
    else Open
  }

  // ---------------------------------------------------------------------------------------
  // The wait as a machine that makes one step a poll
  // ---------------------------------------------------------------------------------------

  datatype Phase =
    | Confirming
    | AwaitingBlock(h: nat)
    | Rechecking(h: nat)
    | Ended(result: Result<(), WaitError>)

  function Step(required: nat, phase: Phase, p: Poll): Phase {
    match phase
    case Confirming =>
      var told := ReceiptTells(p);
      if told.GaveUp? then Ended(Err(told.error))
      else if told.Open? || told.n == 0 then Confirming
      else if told.n + required > U64_MAX then Ended(Err(Overflow))
      else AwaitingBlock(told.n)
    case AwaitingBlock(h) =>
      var told := HeightTells(p, h + required - 1);
      if told.GaveUp? then Ended(Err(told.error)) else if told.Open? then phase else Rechecking(h)
    case Rechecking(h) =>
      var told := ReceiptTells(p);
      if told.GaveUp? then Ended(Err(told.error))
      else if told.Open? then phase
      else if told.n == h then Ended(Ok(()))
      else Confirming
    case Ended(_) => phase
  }

  function After(required: nat, polls: seq<Poll>): Phase {
    if polls == [] then Confirming
    else Step(required, After(required, polls[..|polls| - 1]), polls[|polls| - 1])
  }

  lemma AfterNext(required: nat, polls: seq<Poll>, i: nat)
    requires i < |polls|
    ensures After(required, polls[..i + 1]) == Step(required, After(required, polls[..i]), polls[i])
  {
    assert polls[..i + 1][..i] == polls[..i];
  }

  /** The phase stays the same while the polls tell nothing. */
  lemma {:induction false} AfterOpen(required: nat, polls: seq<Poll>, i: nat, j: nat)
    requires i <= j <= |polls|
    requires forall k :: i <= k < j ==>
      Step(required, After(required, polls[..i]), polls[k]) == After(required, polls[..i])
    ensures After(required, polls[..j]) == After(required, polls[..i])
  {
    if i < j {
      AfterOpen(required, polls, i, j - 1);
      AfterNext(required, polls, j - 1);
    }
  }

  // ---------------------------------------------------------------------------------------
  // The wait as nested loops
  // ---------------------------------------------------------------------------------------

  /** The first poll that tells something from a position on, if there is one, is the last one used. */
  ghost predicate IsFirst(told: nat -> Told, from: nat, next: nat, end: nat, r: Told) {
    && from <= next <= end
    && (forall k :: from <= k < next - 1 ==> told(k) == Open)
    && (if r.Open? then next == end && (from < end ==> told(end - 1) == Open) else from < next && told(next - 1) == r)
  }

  function ReceiptsOf(polls: seq<Poll>): nat -> Told {
    (k: nat) => if k < |polls| then ReceiptTells(polls[k]) else Open
  }

  function HeightsOf(polls: seq<Poll>, target: int): nat -> Told {
    (k: nat) => if k < |polls| then HeightTells(polls[k], target) else Open
  }

  method TransactionConfirmedAt(polls: seq<Poll>, from: nat) returns (r: Told, next: nat)
    requires from <= |polls|
    ensures IsFirst(ReceiptsOf(polls), from, next, |polls|, r)
  {
    next := from;
    while next < |polls|
      invariant from <= next <= |polls|
      invariant forall k :: from <= k < next ==> ReceiptTells(polls[k]) == Open
    {
      var p := polls[next];
      next := next + 1;
      if p.late {
        return GaveUp(Timeout), next;
      }
      if p.receipt.Receipt? {
        if !p.receipt.succeeded {
          return GaveUp(TransactionFailed), next;
        }
        if p.receipt.block.Some? {
          return Number(p.receipt.block.value), next;
        }
      }
    }
    return Open, next;
  }

  method WaitForBlock(polls: seq<Poll>, from: nat, target: int) returns (r: Told, next: nat)
    requires from <= |polls|
    ensures IsFirst(HeightsOf(polls, target), from, next, |polls|, r)
  {
    next := from;
    while next < |polls|
      invariant from <= next <= |polls|
      invariant forall k :: from <= k < next ==> HeightTells(polls[k], target) == Open
    {
      var p := polls[next];
      next := next + 1;
      if p.late {
        return GaveUp(Timeout), next;
      }
      if p.height.Some? && p.height.value >= target {
        return Number(p.height.value), next;
      }
    }
    return Open, next;
  }

  /** From a phase that asks for the receipt, the first poll that tells something makes the next step. */
  lemma ReceiptLoop(required: nat, polls: seq<Poll>, from: nat, next: nat, r: Told)
    requires from <= |polls| && IsFirst(ReceiptsOf(polls), from, next, |polls|, r)
    requires var phase := After(required, polls[..from]); phase.Confirming? || phase.Rechecking?
    ensures var phase := After(required, polls[..from]);
            After(required, polls[..next]) == if r.Open? then phase else Step(required, phase, polls[next - 1])
  {
    var told := ReceiptsOf(polls);
    var last := if r.Open? then next else next - 1;
    forall k | from <= k < last ensures ReceiptTells(polls[k]) == Open {
      assert told(k) == Open;
    }
    AfterOpen(required, polls, from, last);
    if !r.Open? {
      AfterNext(required, polls, last);
    }
  }

  lemma HeightLoop(required: nat, polls: seq<Poll>, from: nat, next: nat, r: Told, h: nat)
    requires from <= |polls| && After(required, polls[..from]) == AwaitingBlock(h)
    requires IsFirst(HeightsOf(polls, h + required - 1), from, next, |polls|, r)
    ensures After(required, polls[..next])
         == if r.Open? then AwaitingBlock(h) else Step(required, AwaitingBlock(h), polls[next - 1])
  {
    var told := HeightsOf(polls, h + required - 1);
    var last := if r.Open? then next else next - 1;
    forall k | from <= k < last ensures HeightTells(polls[k], h + required - 1) == Open {
      assert told(k) == Open;
    }
    AfterOpen(required, polls, from, last);
    if !r.Open? {
      AfterNext(required, polls, last);
    }
  }

  /** An ended wait stays ended. */
  lemma {:induction false} EndedStays(required: nat, polls: seq<Poll>, i: nat)
    requires i <= |polls| && After(required, polls[..i]).Ended?
    ensures After(required, polls) == After(required, polls[..i])
  {
    AfterOpen(required, polls, i, |polls|);
    assert polls[..|polls|] == polls;
  }

  /** The first confirmation and the required height: where the wait is if it stops on the way. */
  method WaitForHeight(polls: seq<Poll>, from: nat, required: nat) returns (stopped: Option<Phase>, next: nat, h: nat)
    requires from <= |polls| && After(required, polls[..from]) == Confirming
    ensures from <= next <= |polls|
    ensures stopped.Some? ==> After(required, polls) == stopped.value
    ensures stopped.None? ==>
      from < next && After(required, polls[..next]) == if h == 0 then Confirming else Rechecking(h)
  {
    h := 0;
    assert polls[..|polls|] == polls;
    var first;
    first, next := TransactionConfirmedAt(polls, from);
    ReceiptLoop(required, polls, from, next, first);
    if first.Open? {
      return Some(Confirming), next, 0;
    }
    if first.GaveUp? {
      EndedStays(required, polls, next);
      return Some(Ended(Err(first.error))), next, 0;
    }
    var confirmedAt, i := first.n, next;
    if confirmedAt == 0 {
      return None, next, 0;
    }
    if confirmedAt + required > U64_MAX {
      EndedStays(required, polls, next);
      return Some(Ended(Err(Overflow))), next, 0;
    }
    var block;
    block, next := WaitForBlock(polls, i, confirmedAt + required - 1);
    HeightLoop(required, polls, i, next, block, confirmedAt);
    if block.Open? {
      return Some(AwaitingBlock(confirmedAt)), next, 0;
    }
    if block.GaveUp? {
      EndedStays(required, polls, next);
      return Some(Ended(Err(block.error))), next, 0;
    }
    return None, next, confirmedAt;
  }

  /** Waits; the result is where the wait is after all polls. */
  method WaitForConfirmations(polls: seq<Poll>, required: nat) returns (phase: Phase)
    ensures phase == After(required, polls)
  {
    var i := 0;
    while true
      invariant i <= |polls|
      invariant After(required, polls[..i]) == Confirming
      decreases |polls| - i
    {
      assert polls[..|polls|] == polls;
      var stopped, next, confirmedAt := WaitForHeight(polls, i, required);
      if stopped.Some? {
        return stopped.value;
      }
      i := next;
      if confirmedAt == 0 {
        continue;
      }
      var second;
      second, next := TransactionConfirmedAt(polls, i);
      ReceiptLoop(required, polls, i, next, second);
      if second.Open? {
        return Rechecking(confirmedAt);
      }
      if second.GaveUp? {
        EndedStays(required, polls, next);
        return Ended(Err(second.error));
      }
      if second.n == confirmedAt {
        EndedStays(required, polls, next);
        return Ended(Ok(()));
      }
      i := next;
    }
  }

  // ---------------------------------------------------------------------------------------
  // What a confirmation means
  // ---------------------------------------------------------------------------------------

  /** A successful receipt in block h was seen in time. */
  predicate SeenAt(polls: seq<Poll>, i: nat, h: nat) {
    i < |polls| && !polls[i].late && polls[i].receipt == Receipt(true, Some(h))
  }

  /** The chain was seen, in time, to be high enough for the required confirmations of block h. */
  predicate HighAt(polls: seq<Poll>, i: nat, h: nat, required: nat) {
    i < |polls| && !polls[i].late && polls[i].height.Some? && polls[i].height.value >= h + required - 1
  }

  ghost predicate Confirmed(polls: seq<Poll>, required: nat, h: nat, a: nat, b: nat, c: nat) {
    && h > 0 && h + required <= U64_MAX && a < b < c
    && SeenAt(polls, a, h) && HighAt(polls, b, h, required) && SeenAt(polls, c, h)
  }

  /** What was seen when the wait is in some phase. */
  ghost predicate Inv(polls: seq<Poll>, required: nat, phase: Phase) {
    match phase
    case Confirming => true
    case AwaitingBlock(h) => h > 0 && h + required <= U64_MAX && exists a: nat :: SeenAt(polls, a, h)
    case Rechecking(h) =>
      && h > 0 && h + required <= U64_MAX
      && exists a: nat, b: nat :: a < b && SeenAt(polls, a, h) && HighAt(polls, b, h, required)
    case Ended(Ok(_)) => exists h: nat, a: nat, b: nat, c: nat :: Confirmed(polls, required, h, a, b, c)
    case Ended(Err(Timeout)) => exists i :: 0 <= i < |polls| && polls[i].late
    case Ended(Err(TransactionFailed)) =>
      exists i :: 0 <= i < |polls| && polls[i].receipt.Receipt? && !polls[i].receipt.succeeded
    case Ended(Err(Overflow)) => exists i: nat, h: nat :: SeenAt(polls, i, h) && h + required > U64_MAX
  }

  lemma StepKeepsInv(polls: seq<Poll>, required: nat, phase: Phase, p: Poll)
    requires Inv(polls, required, phase)
    ensures Inv(polls + [p], required, Step(required, phase, p))
  {
    var n, all := |polls|, polls + [p];
    assert all[n] == p;
    assert forall i: nat, h: nat :: SeenAt(polls, i, h) ==> SeenAt(all, i, h);
    assert forall i: nat, h: nat :: HighAt(polls, i, h, required) ==> HighAt(all, i, h, required);
    assert forall i :: 0 <= i < n ==> all[i] == polls[i];
    match phase
    case Confirming =>
      var told := ReceiptTells(p);
      assert told.Number? ==> SeenAt(all, n, told.n);
    case AwaitingBlock(h) =>
      var a: nat :| SeenAt(polls, a, h);
      assert SeenAt(all, a, h);
      assert HeightTells(p, h + required - 1).Number? ==> HighAt(all, n, h, required);
    case Rechecking(h) =>
      var a: nat, b: nat :| a < b && SeenAt(polls, a, h) && HighAt(polls, b, h, required);
      assert SeenAt(all, a, h) && HighAt(all, b, h, required);
      if ReceiptTells(p) == Number(h) {
        assert Confirmed(all, required, h, a, b, n);
      }
    case Ended(r) =>
      if r.Ok? {
        var h: nat, a: nat, b: nat, c: nat :| Confirmed(polls, required, h, a, b, c);
        assert Confirmed(all, required, h, a, b, c);
      }
  }

  /**
   Whatever the node answers, an ended wait is justified by what was seen: in particular it succeeds
   only if the same positive height was seen before and after the chain was high enough.
   */
  lemma {:induction false} WaitIsJustified(polls: seq<Poll>, required: nat)
    ensures Inv(polls, required, After(required, polls))
  {
    if polls != [] {
      var n := |polls| - 1;
      WaitIsJustified(polls[..n], required);
      StepKeepsInv(polls[..n], required, After(required, polls[..n]), polls[n]);
      assert polls == polls[..n] + [polls[n]];
    }
  }

  /** The target height is at least 0, and at least the height of the transaction if a confirmation is required. */
  lemma TargetDoesNotUnderflow(polls: seq<Poll>, required: nat, h: nat)
    requires After(required, polls) == AwaitingBlock(h) || After(required, polls) == Rechecking(h)
    ensures 0 <= h + required - 1 < U64_MAX && (required >= 1 ==> h <= h + required - 1)
  {
    WaitIsJustified(polls, required);
  }

  /** A wait ends once the deadline has passed. */
  lemma DeadlineEndsTheWait(polls: seq<Poll>, required: nat, i: nat)
    requires i < |polls| && polls[i].late
    ensures After(required, polls).Ended?
  {
    AfterNext(required, polls, i);
    EndedStays(required, polls, i + 1);
  }

  /** Polls before the deadline, in the phases that ask for the receipt. */
  predicate AsksReceipt(phase: Phase) {
    phase.Confirming? || phase.Rechecking?
  }

  /** A poll after the deadline ends a wait that is going on with a timeout, whatever else it says. */
  lemma LatePollTimesOut(polls: seq<Poll>, required: nat, p: Poll)
    requires !After(required, polls).Ended? && p.late
    ensures After(required, polls + [p]) == Ended(Err(Timeout))
  {
    assert (polls + [p])[..|polls|] == polls;
  }

  /** A receipt of a failed transaction ends it too, with or without a block. */
  lemma FailedReceiptEndsTheWait(polls: seq<Poll>, required: nat, p: Poll)
    requires AsksReceipt(After(required, polls)) && !p.late && p.receipt.Receipt? && !p.receipt.succeeded
    ensures After(required, polls + [p]) == Ended(Err(TransactionFailed))
  {
    assert (polls + [p])[..|polls|] == polls;
  }

  /** A block so high that the target would not fit 64 bits ends it as well. */
  lemma HighBlockOverflows(polls: seq<Poll>, required: nat, p: Poll, h: nat)
    requires After(required, polls) == Confirming && !p.late && p.receipt == Receipt(true, Some(h))
    requires h > 0 && h + required >= 0x1_0000_0000_0000_0000
    ensures After(required, polls + [p]) == Ended(Err(Overflow))
  {
    assert (polls + [p])[..|polls|] == polls;
  }

  /** A request that fails, a missing receipt, and a receipt without a block change nothing. */
  lemma OpenPollsAreIgnored(polls: seq<Poll>, required: nat, p: Poll)
    requires !p.late
    requires p.receipt.Receipt? ==> p.receipt.succeeded && p.receipt.block.None?
    requires p.height.None?
    ensures After(required, polls + [p]) == After(required, polls)
  {
    assert (polls + [p])[..|polls|] == polls;
  }

  /** A block of height 0 is not believed, and another block than before starts the wait over. */
  lemma DoubtfulBlocksStartOver(polls: seq<Poll>, required: nat, p: Poll, h: nat)
    requires !p.late && p.receipt == Receipt(true, Some(h))
    requires match After(required, polls)
             case Confirming => h == 0
             case Rechecking(g) => g != h
             case _ => false
    ensures After(required, polls + [p]) == Confirming
  {
    assert (polls + [p])[..|polls|] == polls;
  }

  // ---------------------------------------------------------------------------------------
  // Progress
  // ---------------------------------------------------------------------------------------

  /** From position k on, the node answers in time, with block h and a chain of at least the given height. */
  ghost predicate Settled(polls: seq<Poll>, k: nat, h: nat, height: nat) {
    forall i :: k <= i < |polls| ==> SeenAt(polls, i, h) && polls[i].height.Some? && polls[i].height.value >= height
  }

  /** The steps a settled node still needs; it answers block h. */
  function StepsLeft(phase: Phase, h: nat): nat {
    match phase
    case Confirming => 3
    case AwaitingBlock(g) => if g == h then 2 else 5
    case Rechecking(g) => if g == h then 1 else 4
    case Ended(_) => 0
  }

  /** The height suffices for the block the wait is aiming for. */
  predicate Reaches(phase: Phase, required: nat, height: nat) {
    (phase.AwaitingBlock? || phase.Rechecking?) ==> height >= phase.h + required - 1
  }

  lemma SettledStep(required: nat, phase: Phase, p: Poll, h: nat, height: nat)
    requires Reaches(phase, required, height) && 0 < h && h + required <= U64_MAX && height >= h + required - 1
    requires !p.late && p.receipt == Receipt(true, Some(h)) && p.height.Some? && p.height.value >= height
    ensures var next := Step(required, phase, p);
            && Reaches(next, required, height)
            && StepsLeft(next, h) <= (if StepsLeft(phase, h) > 0 then StepsLeft(phase, h) - 1 else 0)
            && (next.Ended? && !phase.Ended? ==> next.result == Ok(()))
  {
  }

  lemma {:induction false} SettledNodeAdvances(polls: seq<Poll>, required: nat, k: nat, j: nat, h: nat, height: nat)
    requires k <= j <= |polls|
    requires var phase := After(required, polls[..k]); !phase.Ended? && Reaches(phase, required, height)
    requires 0 < h && h + required <= U64_MAX && Settled(polls, k, h, height) && height >= h + required - 1
    ensures var phase := After(required, polls[..j]);
            && Reaches(phase, required, height)
            && StepsLeft(phase, h) <= (if j < k + 5 then k + 5 - j else 0)
            && (phase.Ended? ==> phase.result == Ok(()))
  {
    if k < j {
      var i, p := j - 1, polls[j - 1];
      SettledNodeAdvances(polls, required, k, i, h, height);
      AfterNext(required, polls, i);
      assert SeenAt(polls, i, h);
      assert p.height.Some? && p.height.value >= height;
      SettledStep(required, After(required, polls[..i]), p, h, height);
    }
  }

  /**
   A wait that is going on when the node settles succeeds after at most five more polls, if the chain
   is high enough for every block that was reported before: the wait still aims for a block that a
   reorganisation has dropped.
   */
  lemma SettledNodeConfirms(polls: seq<Poll>, required: nat, k: nat, h: nat, height: nat)
    requires k + 5 <= |polls| && !After(required, polls[..k]).Ended?
    requires 0 < h && h + required <= U64_MAX && Settled(polls, k, h, height)
    requires height >= h + required - 1
    requires forall i: nat, g: nat :: i < k && SeenAt(polls, i, g) ==> height >= g + required - 1
    ensures After(required, polls) == Ended(Ok(()))
  {
    WaitIsJustified(polls[..k], required);
    var phase := After(required, polls[..k]);
    if phase.AwaitingBlock? || phase.Rechecking? {
      var seen := polls[..k];
      var a: nat :| SeenAt(seen, a, phase.h);
      assert SeenAt(seen, a, phase.h) && seen[a] == polls[a];
      assert SeenAt(polls, a, phase.h);
    }
    SettledNodeAdvances(polls, required, k, |polls|, h, height);
    assert polls[..|polls|] == polls;
  }

  /**
   The height is needed: while the chain is lower than the dropped block asks for, the wait goes on,
   however long ago the transaction was confirmed in another block.
   */
  lemma DroppedBlockHoldsTheWait(polls: seq<Poll>, required: nat, k: nat, g: nat)
    requires k <= |polls| && After(required, polls[..k]) == AwaitingBlock(g)
    requires forall i :: k <= i < |polls| ==>
      !polls[i].late && (polls[i].height.Some? ==> polls[i].height.value < g + required - 1)
    ensures After(required, polls) == AwaitingBlock(g)
  {
    AfterOpen(required, polls, k, |polls|);
    assert polls[..|polls|] == polls;
  }
}
