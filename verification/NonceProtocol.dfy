/**
 The nonce discipline of one address, as a concurrent protocol: tasks that send from the address
 take its lock, read the highest pending nonce of all nodes, sign, send, and wait until some node
 reports a higher nonce before they release the lock.
 */
module NonceProtocol {
  import opened Wrappers

  // ---------------------------------------------------------------------------------------
  // Reading the nonce: one round asks every node
  // ---------------------------------------------------------------------------------------

  datatype Reply = Pending | Nonce(value: nat) | Error

  predicate AllErrors(round: seq<Reply>) {
    forall n :: 0 <= n < |round| ==> round[n].Error?
  }

  predicate AllNonces(round: seq<Reply>) {
    forall n :: 0 <= n < |round| ==> round[n].Nonce?
  }

  /** The highest nonce that a round brought in. */
  function Highest(round: seq<Reply>): (max: Option<nat>)
    ensures max.None? <==> forall n :: 0 <= n < |round| ==> !round[n].Nonce?
    ensures max.Some? ==> Nonce(max.value) in round
    ensures max.Some? ==> forall n :: 0 <= n < |round| && round[n].Nonce? ==> round[n].value <= max.value
  {
    if round == [] then None
    else
      var rest := Highest(round[..|round| - 1]);
      var last := round[|round| - 1];
      if !last.Nonce? then rest
      else if rest.None? || rest.value < last.value then Some(last.value) else rest
  }

  /** The nodes that reported the highest nonce; the transaction is sent through them. */
  function Instances(round: seq<Reply>, max: nat): (nodes: set<nat>)
    ensures forall n :: n in nodes <==> 0 <= n < |round| && round[n] == Nonce(max)
  {
    set n: nat | n < |round| && round[n] == Nonce(max)
  }

  datatype Reading = Found(nonce: nat, instances: set<nat>) | Aborted | StillReading

  const MAX_ERRORS := 5

  /**
   Repeats rounds until one brings in a nonce; the sixth round without any answer aborts.
   `rounds` are the rounds as they come in, each with an answer or an error of every node.
   */
  method GetAddrNonce(rounds: seq<seq<Reply>>) returns (r: Reading)
    requires forall k :: 0 <= k < |rounds| ==> Pending !in rounds[k]
    ensures r.Found? <==> exists k :: 0 <= k < |rounds| && k <= 5 && !AllErrors(rounds[k])
    ensures r.Found? ==> exists k :: 0 <= k < |rounds| && k <= 5
                                     && (forall j :: 0 <= j < k ==> AllErrors(rounds[j]))
                                     && Highest(rounds[k]) == Some(r.nonce)
                                     && r.instances == Instances(rounds[k], r.nonce) != {}
    ensures r.Aborted? <==> 5 < |rounds| && forall j :: 0 <= j <= 5 ==> AllErrors(rounds[j])
  {
    var errors := 0;
    while errors < |rounds|
      invariant 0 <= errors <= |rounds| && errors <= MAX_ERRORS
      invariant forall j :: 0 <= j < errors ==> AllErrors(rounds[j])
    {
      var max := Highest(rounds[errors]);
      if max.Some? {
        var n :| 0 <= n < |rounds[errors]| && rounds[errors][n] == Nonce(max.value);
        assert n in Instances(rounds[errors], max.value);
        return Found(max.value, Instances(rounds[errors], max.value));
      }
      assert AllErrors(rounds[errors]) by {
        forall n | 0 <= n < |rounds[errors]| ensures rounds[errors][n].Error? {
          assert rounds[errors][n] in rounds[errors];
        }
      }
      errors := errors + 1;
      if errors > MAX_ERRORS {
        return Aborted;
      }
    }
    return StillReading;
  }

  // ---------------------------------------------------------------------------------------
  // The protocol
  // ---------------------------------------------------------------------------------------

  /** Where a task stands. The three active phases run under the lock. */
  datatype Phase =
    | Idle
    | Asking(round: seq<Reply>, errors: nat)
    | Signed(nonce: nat, instances: set<nat>)
    | Waiting(nonce: nat, round: seq<Reply>)
    | Finished
    | Failed
  {
    predicate Active() {
      Asking? || Signed? || Waiting?
    }
  }

  /** A transaction a node accepted; the ticket numbers the acquisitions of the lock. */
  datatype Accepted = Accepted(ticket: nat, task: nat, nonce: nat)

  /**
   `views[n]` is the pending nonce that node n would report now; `lost` are the transactions that were
   sent without a response and may still be accepted.
   */
  datatype State = State(
    views: seq<nat>,
    lock: Option<nat>,
    tasks: seq<Phase>,
    tickets: nat,
    accepted: seq<Accepted>,
    lost: seq<Accepted>)

  datatype Step =
    | Acquire(task: nat)
    | Answer(task: nat, node: nat, arrives: bool)
    | Conclude(task: nat)
    | SignError(task: nat)
    | SendOk(task: nat, node: nat)
    | SendError(task: nat)
    | SendLost(task: nat)
    | Arrive(index: nat)
    | Cancel(task: nat)
    | View(node: nat, nonce: nat)

  function NoReplies(s: State): seq<Reply> {
    seq(|s.views|, _ => Pending)
  }

  predicate Enabled(s: State, a: Step) {
    match a
    case Acquire(t) => t < |s.tasks| && s.tasks[t].Idle? && s.lock.None?
    case Answer(t, n, _) =>
      && t < |s.tasks| && (s.tasks[t].Asking? || s.tasks[t].Waiting?)
      && n < |s.tasks[t].round| && n < |s.views| && s.tasks[t].round[n].Pending?
    case Conclude(t) =>
      t < |s.tasks| && (s.tasks[t].Asking? || s.tasks[t].Waiting?) && Pending !in s.tasks[t].round
    case SignError(t) => t < |s.tasks| && s.tasks[t].Signed?
    case SendOk(t, n) => t < |s.tasks| && s.tasks[t].Signed? && n in s.tasks[t].instances
    case SendError(t) => t < |s.tasks| && s.tasks[t].Signed?
    case SendLost(t) => t < |s.tasks| && s.tasks[t].Signed?
    case Arrive(i) => i < |s.lost|
    case Cancel(t) => t < |s.tasks| && s.tasks[t].Active()
    case View(n, _) => n < |s.views|
  }

  function Release(s: State, t: nat, p: Phase): State
    requires t < |s.tasks|
  {
    s.(tasks := s.tasks[t := p], lock := None)
  }

  function Apply(s: State, a: Step): State
    requires Enabled(s, a)
  {
    match a
    case Acquire(t) => s.(lock := Some(t), tickets := s.tickets + 1, tasks := s.tasks[t := Asking(NoReplies(s), 0)])
    case Answer(t, n, arrives) =>
      var p := s.tasks[t];
      s.(tasks := s.tasks[t := p.(round := p.round[n := if arrives then Nonce(s.views[n]) else Error])])
    case Conclude(t) =>
      var p := s.tasks[t];
      var max := Highest(p.round);
      if p.Asking? then
        if max.Some? then s.(tasks := s.tasks[t := Signed(max.value, Instances(p.round, max.value))])
        else if p.errors + 1 > MAX_ERRORS then Release(s, t, Failed)
        else s.(tasks := s.tasks[t := Asking(NoReplies(s), p.errors + 1)])
      else
        if max.Some? && max.value > p.nonce then Release(s, t, Finished)
        else s.(tasks := s.tasks[t := Waiting(p.nonce, NoReplies(s))])
    case SignError(t) => Release(s, t, Failed)
    case SendOk(t, n) =>
      var nonce := s.tasks[t].nonce;
      s.(accepted := s.accepted + [Accepted(s.tickets, t, nonce)], tasks := s.tasks[t := Waiting(nonce, NoReplies(s))])
    case SendError(t) => Release(s, t, Failed)
    case SendLost(t) =>
      Release(s.(lost := s.lost + [Accepted(s.tickets, t, s.tasks[t].nonce)]), t, Failed)
    case Arrive(i) => s.(accepted := s.accepted + [s.lost[i]], lost := s.lost[..i] + s.lost[i + 1..])
    case Cancel(t) => Release(s, t, Failed)
    case View(n, v) => s.(views := s.views[n := v])
  }

  /**
   What the protocol relies on: a round from which a nonce is taken got an answer from every node; a
   task that has sent is not dropped before it has seen the nonce increase; when sending fails, or a
   task is dropped while it sends, no node accepts the transaction, then or later; and the nonce that
   a node reports never decreases.
   */
  datatype Assumption = AllAnswer | NoneIsDropped | NoneIsLost | ViewsGrow

  predicate Meets(s: State, a: Step, w: Assumption)
    requires Enabled(s, a)
  {
    match w
    case AllAnswer =>
      a.Conclude? && s.tasks[a.task].Asking? ==> AllNonces(s.tasks[a.task].round) || AllErrors(s.tasks[a.task].round)
    case NoneIsDropped => a.Cancel? ==> !s.tasks[a.task].Waiting?
    case NoneIsLost => !a.SendLost?
    case ViewsGrow => a.View? ==> s.views[a.node] <= a.nonce
  }

  predicate Reliable(s: State, a: Step)
    requires Enabled(s, a)
  {
    Meets(s, a, AllAnswer) && Meets(s, a, NoneIsDropped) && Meets(s, a, NoneIsLost) && Meets(s, a, ViewsGrow)
  }

  predicate Initial(s: State) {
    && s.lock.None? && s.accepted == [] && s.lost == [] && s.tickets == 0
    && forall t :: 0 <= t < |s.tasks| ==> s.tasks[t].Idle?
  }

  predicate IsRun(s: State, steps: seq<Step>)
    decreases |steps|
  {
    steps == [] || (Enabled(s, steps[0]) && IsRun(Apply(s, steps[0]), steps[1..]))
  }

  predicate IsReliableRun(s: State, steps: seq<Step>)
    decreases |steps|
  {
    steps == [] || (Enabled(s, steps[0]) && Reliable(s, steps[0]) && IsReliableRun(Apply(s, steps[0]), steps[1..]))
  }

  function After(s: State, steps: seq<Step>): State
    requires IsRun(s, steps)
    decreases |steps|
  {
    if steps == [] then s else After(Apply(s, steps[0]), steps[1..])
  }

  /** Every accepted transaction has a higher nonce and a later ticket than the ones before. */
  predicate Increasing(accepted: seq<Accepted>) {
    forall i, j :: 0 <= i < j < |accepted| ==>
      accepted[i].nonce < accepted[j].nonce && accepted[i].ticket < accepted[j].ticket
  }

  // ---------------------------------------------------------------------------------------
  // What tasks do
  // ---------------------------------------------------------------------------------------

  /** Only the task has changed, and has given the lock back. */
  predicate GaveUp(s: State, s': State, t: nat) {
    && t < |s.tasks| && s'.tasks == s.tasks[t := Failed] && s'.lock == None
    && s'.views == s.views && s'.tickets == s.tickets && s'.accepted == s.accepted
  }

  /** Every failure, and being dropped, gives the lock back, and accepts nothing. */
  lemma FailuresGiveUp(s: State, a: Step)
    requires Enabled(s, a)
    requires a.SignError? || a.SendError? || a.SendLost? || a.Cancel?
    ensures GaveUp(s, Apply(s, a), a.task)
    ensures Apply(s, a).lost
         == s.lost + if a.SendLost? then [Accepted(s.tickets, a.task, s.tasks[a.task].nonce)] else []
  {
  }

  /** A round of a reading: the nonce is the highest answer, and the sixth round without any answer fails. */
  lemma ReadingConcludes(s: State, t: nat, n: nat)
    requires Enabled(s, Conclude(t)) && s.tasks[t].Asking?
    ensures var s' := Apply(s, Conclude(t));
            var round, errors := s.tasks[t].round, s.tasks[t].errors;
            if AllErrors(round) && errors >= 5 then GaveUp(s, s', t) && s'.lost == s.lost
            else
              && s' == s.(tasks := s.tasks[t := s'.tasks[t]])
              && if AllErrors(round) then s'.tasks[t] == Asking(NoReplies(s), errors + 1)
                 else
                   && s'.tasks[t].Signed?
                   && var max := s'.tasks[t].nonce;
                      && Nonce(max) in round && (n < |round| && round[n].Nonce? ==> round[n].value <= max)
                      && (n in s'.tasks[t].instances <==> n < |round| && round[n] == Nonce(max))
  {
    var round := s.tasks[t].round;
    forall i | 0 <= i < |round| ensures round[i].Nonce? || round[i].Error? {
      assert round[i] in round;
    }
  }

  /** A wait ends exactly with a round that has an answer past the nonce of the task, and asks again otherwise. */
  lemma WaitConcludes(s: State, t: nat)
    requires Enabled(s, Conclude(t)) && s.tasks[t].Waiting?
    ensures var s' := Apply(s, Conclude(t));
            var round, nonce := s.tasks[t].round, s.tasks[t].nonce;
            if exists n :: 0 <= n < |round| && round[n].Nonce? && round[n].value > nonce
            then s' == s.(tasks := s.tasks[t := Finished], lock := None)
            else s' == s.(tasks := s.tasks[t := Waiting(nonce, NoReplies(s))])
  {
    var max := Highest(s.tasks[t].round);
    if max.Some? {
      assert Nonce(max.value) in s.tasks[t].round;
    }
  }

  // ---------------------------------------------------------------------------------------
  // The invariant
  // ---------------------------------------------------------------------------------------

  function Last(s: State): Accepted
    requires s.accepted != []
  {
    s.accepted[|s.accepted| - 1]
  }

  /** Node n is past the last accepted nonce, and so is its answer if it has given one. */
  ghost predicate IsPast(s: State, n: nat, round: seq<Reply>) {
    s.accepted != [] && n < |s.views| && n < |round|
    && Last(s).nonce < s.views[n] && (round[n].Nonce? ==> Last(s).nonce < round[n].value)
  }

  ghost predicate PhaseInv(s: State, p: Phase) {
    match p
    case Asking(round, _) =>
      && |round| == |s.views|
      && (s.accepted != [] ==> Last(s).ticket < s.tickets && exists n: nat :: IsPast(s, n, round))
    case Signed(nonce, _) =>
      s.accepted != [] ==>
        Last(s).nonce < nonce && Last(s).ticket < s.tickets && exists n: nat :: IsPast(s, n, NoReplies(s))
    case Waiting(nonce, round) =>
      && s.accepted != [] && Last(s).nonce == nonce && Last(s).ticket == s.tickets
      && |round| == |s.views|
      && forall n :: 0 <= n < |round| && round[n].Nonce? ==> round[n].value <= s.views[n]
    case _ => true
  }

  ghost predicate Inv(s: State) {
    && Increasing(s.accepted) && s.lost == []
    && (forall t :: 0 <= t < |s.tasks| ==> (s.tasks[t].Active() <==> s.lock == Some(t)))
    && (s.lock.Some? ==> s.lock.value < |s.tasks| && PhaseInv(s, s.tasks[s.lock.value]))
    && (s.lock.None? && s.accepted != [] ==>
          Last(s).ticket <= s.tickets && exists n: nat :: IsPast(s, n, NoReplies(s)))
  }

  lemma AnswerKeepsInv(s: State, a: Step)
    requires Inv(s) && a.Answer? && Enabled(s, a)
    ensures Inv(Apply(s, a))
  {
    var s' := Apply(s, a);
    var p, p' := s.tasks[a.task], s'.tasks[a.task];
    assert s.lock == Some(a.task);
    if p.Asking? && s.accepted != [] {
      var n: nat :| IsPast(s, n, p.round);
      assert IsPast(s', n, p'.round);
    }
  }

  lemma ViewKeepsInv(s: State, a: Step)
    requires Inv(s) && a.View? && Enabled(s, a) && Reliable(s, a)
    ensures Inv(Apply(s, a))
  {
    var s' := Apply(s, a);
    if s.accepted != [] {
      if s.lock.None? || s.tasks[s.lock.value].Signed? {
        var n: nat :| IsPast(s, n, NoReplies(s));
        assert IsPast(s', n, NoReplies(s'));
      } else if s.tasks[s.lock.value].Asking? {
        var round := s.tasks[s.lock.value].round;
        var n: nat :| IsPast(s, n, round);
        assert IsPast(s', n, round);
      }
    }
  }

  lemma ConcludeKeepsInv(s: State, a: Step)
    requires Inv(s) && a.Conclude? && Enabled(s, a) && Reliable(s, a)
    ensures Inv(Apply(s, a))
  {
    var s' := Apply(s, a);
    var p := s.tasks[a.task];
    assert s.lock == Some(a.task);
    if s.accepted != [] {
      if p.Asking? {
        var n: nat :| IsPast(s, n, p.round);
        assert IsPast(s', n, NoReplies(s'));
        assert p.round[n].Nonce? ==> Last(s).nonce < Highest(p.round).value;
      } else {
        var max := Highest(p.round);
        if max.Some? && max.value > p.nonce {
          var n :| 0 <= n < |p.round| && p.round[n] == Nonce(max.value);
          assert IsPast(s', n, NoReplies(s'));
        }
      }
    }
  }

  /** Dropping the answers of a round does not take back what the nodes know. */
  lemma StillPast(s: State, round: seq<Reply>, s': State)
    requires s.accepted != [] ==> exists n: nat :: IsPast(s, n, round)
    requires s'.views == s.views && s'.accepted == s.accepted
    ensures s.accepted != [] ==> exists n: nat :: IsPast(s', n, NoReplies(s'))
  {
    if s.accepted != [] {
      var n: nat :| IsPast(s, n, round);
      assert IsPast(s', n, NoReplies(s'));
    }
  }

  lemma StepKeepsInv(s: State, a: Step)
    requires Inv(s) && Enabled(s, a) && Reliable(s, a)
    ensures Inv(Apply(s, a))
  {
    var s' := Apply(s, a);
    match a
    case Answer(_, _, _) => AnswerKeepsInv(s, a);
    case View(_, _) => ViewKeepsInv(s, a);
    case Conclude(_) => ConcludeKeepsInv(s, a);
    case Acquire(_) => StillPast(s, NoReplies(s), s');
    case SignError(t) => assert s.lock == Some(t); StillPast(s, NoReplies(s), s');
    case SendError(t) => assert s.lock == Some(t); StillPast(s, NoReplies(s), s');
    case SendOk(t, _) => assert s.lock == Some(t);
    case Cancel(t) =>
      assert s.lock == Some(t);
      StillPast(s, if s.tasks[t].Asking? then s.tasks[t].round else NoReplies(s), s');
    case _ =>
  }

  lemma {:induction false} RunKeepsInv(s: State, steps: seq<Step>)
    requires Inv(s) && IsReliableRun(s, steps)
    ensures IsRun(s, steps) && Inv(After(s, steps))
    decreases |steps|
  {
    if steps != [] {
      StepKeepsInv(s, steps[0]);
      RunKeepsInv(Apply(s, steps[0]), steps[1..]);
    }
  }

  /**
   However senders interleave with each other and with the nodes, accepted transactions carry
   strictly increasing nonces in the order in which their tasks took the lock.
   */
  lemma NoncesIncrease(s: State, steps: seq<Step>)
    requires Initial(s) && IsReliableRun(s, steps)
    ensures IsRun(s, steps) && Increasing(After(s, steps).accepted)
  {
    RunKeepsInv(s, steps);
  }

  // ---------------------------------------------------------------------------------------
  // When a reading is fresh
  // ---------------------------------------------------------------------------------------

  /** Some node has answered with a nonce past the last accepted one. */
  ghost predicate ReadsPast(s: State, round: seq<Reply>) {
    s.accepted != [] ==> exists n: nat :: n < |round| && round[n].Nonce? && Last(s).nonce < round[n].value
  }

  /** A nonce is only taken from a round that reads past the last accepted one, and no send is lost. */
  ghost predicate IsFresh(s: State, a: Step)
    requires Enabled(s, a)
  {
    && !a.SendLost?
    && (a.Conclude? && s.tasks[a.task].Asking? && Highest(s.tasks[a.task].round).Some? ==>
          ReadsPast(s, s.tasks[a.task].round))
  }

  ghost predicate IsFreshRun(s: State, steps: seq<Step>)
    decreases |steps|
  {
    steps == [] || (Enabled(s, steps[0]) && IsFresh(s, steps[0]) && IsFreshRun(Apply(s, steps[0]), steps[1..]))
  }

  ghost predicate OrderInv(s: State) {
    && Increasing(s.accepted) && s.lost == []
    && (forall t :: 0 <= t < |s.tasks| ==> (s.tasks[t].Active() <==> s.lock == Some(t)))
    && (s.lock.Some? ==> s.lock.value < |s.tasks|)
    && (s.accepted != [] ==> Last(s).ticket <= s.tickets)
    && (s.lock.Some? && s.accepted != [] ==>
          match s.tasks[s.lock.value]
          case Asking(_, _) => Last(s).ticket < s.tickets
          case Signed(nonce, _) => Last(s).ticket < s.tickets && Last(s).nonce < nonce
          case _ => true)
  }

  lemma FreshReadingIsPast(s: State, round: seq<Reply>)
    requires ReadsPast(s, round) && s.accepted != []
    ensures Highest(round).Some? && Last(s).nonce < Highest(round).value
  {
    var n: nat :| n < |round| && round[n].Nonce? && Last(s).nonce < round[n].value;
    assert round[n].value <= Highest(round).value;
  }

  lemma FreshConcludeKeepsOrder(s: State, t: nat)
    requires OrderInv(s) && Enabled(s, Conclude(t)) && IsFresh(s, Conclude(t))
    ensures OrderInv(Apply(s, Conclude(t)))
  {
    assert s.lock == Some(t);
    var p, s' := s.tasks[t], Apply(s, Conclude(t));
    if p.Asking? && Highest(p.round).Some? && s.accepted != [] {
      FreshReadingIsPast(s, p.round);
    }
    assert s'.accepted == s.accepted && s'.tickets == s.tickets && |s'.tasks| == |s.tasks|;
    assert forall u :: 0 <= u < |s.tasks| && u != t ==> s'.tasks[u] == s.tasks[u];
  }

  lemma FreshStepKeepsOrder(s: State, a: Step)
    requires OrderInv(s) && Enabled(s, a) && IsFresh(s, a)
    ensures OrderInv(Apply(s, a))
  {
    match a
    case Conclude(t) => FreshConcludeKeepsOrder(s, t);
    case Answer(t, _, _) => assert s.lock == Some(t);
    case SignError(t) => assert s.lock == Some(t);
    case SendOk(t, _) => assert s.lock == Some(t);
    case SendError(t) => assert s.lock == Some(t);
    case Cancel(t) => assert s.lock == Some(t);
    case _ =>
  }

  lemma {:induction false} FreshRunKeepsOrder(s: State, steps: seq<Step>)
    requires OrderInv(s) && IsFreshRun(s, steps)
    ensures IsRun(s, steps) && OrderInv(After(s, steps))
    decreases |steps|
  {
    if steps != [] {
      FreshStepKeepsOrder(s, steps[0]);
      FreshRunKeepsOrder(Apply(s, steps[0]), steps[1..]);
    }
  }

  /** Fresh readings suffice, whatever else nodes and tasks do: views may decrease and waiting tasks may be dropped. */
  lemma FreshNoncesIncrease(s: State, steps: seq<Step>)
    requires Initial(s) && IsFreshRun(s, steps)
    ensures IsRun(s, steps) && Increasing(After(s, steps).accepted)
  {
    FreshRunKeepsOrder(s, steps);
  }

  /**
   And they are needed: with a nonce from a round, a node accepts a transaction that continues the order
   exactly if the round reads past the last accepted one.
   */
  lemma SendKeepsOrderIff(s: State, t: nat, n: nat)
    requires OrderInv(s) && Enabled(s, Conclude(t)) && s.tasks[t].Asking?
    requires var max := Highest(s.tasks[t].round); max.Some? && n in Instances(s.tasks[t].round, max.value)
    ensures var signed := Apply(s, Conclude(t));
            && Enabled(signed, SendOk(t, n))
            && (Increasing(Apply(signed, SendOk(t, n)).accepted) <==> ReadsPast(s, s.tasks[t].round))
  {
    var round := s.tasks[t].round;
    var max := Highest(round).value;
    var signed := Apply(s, Conclude(t));
    var accepted := Apply(signed, SendOk(t, n)).accepted;
    assert s.lock == Some(t);
    assert accepted == s.accepted + [Accepted(s.tickets, t, max)];
    if s.accepted != [] {
      var k := |s.accepted|;
      assert accepted[k - 1] == Last(s) && accepted[k].nonce == max;
      assert round[n] == Nonce(max);
    }
  }

  /** What the protocol relies on makes every reading fresh. */
  lemma ReliableIsFresh(s: State, a: Step)
    requires Inv(s) && Enabled(s, a) && Reliable(s, a)
    ensures IsFresh(s, a)
  {
    if a.Conclude? && s.tasks[a.task].Asking? && Highest(s.tasks[a.task].round).Some? && s.accepted != [] {
      assert s.lock == Some(a.task);
      var round := s.tasks[a.task].round;
      var n: nat :| IsPast(s, n, round);
      assert round[n].Nonce?;
    }
  }

  // ---------------------------------------------------------------------------------------
  // Each of the assumptions is needed
  // ---------------------------------------------------------------------------------------

  /** The step meets every assumption but one. */
  predicate MeetsOthers(s: State, a: Step, w: Assumption)
    requires Enabled(s, a)
  {
    forall x: Assumption :: x != w ==> Meets(s, a, x)
  }

  predicate IsRunBut(s: State, steps: seq<Step>, w: Assumption)
    decreases |steps|
  {
    steps == [] || (Enabled(s, steps[0]) && MeetsOthers(s, steps[0], w) && IsRunBut(Apply(s, steps[0]), steps[1..], w))
  }

  predicate Leads(w: Assumption, s: State, steps: seq<Step>, s': State) {
    IsRun(s, steps) && IsRunBut(s, steps, w) && After(s, steps) == s'
  }

  lemma Then(w: Assumption, s: State, a: Step, s1: State, rest: seq<Step>, s2: State)
    requires Enabled(s, a) && MeetsOthers(s, a, w) && Apply(s, a) == s1 && Leads(w, s1, rest, s2)
    ensures Leads(w, s, [a] + rest, s2)
  {
    assert ([a] + rest)[1..] == rest;
  }

  lemma {:induction false} Join(w: Assumption, s: State, a: seq<Step>, s1: State, b: seq<Step>, s2: State)
    requires Leads(w, s, a, s1) && Leads(w, s1, b, s2)
    ensures Leads(w, s, a + b, s2)
    decreases |a|
  {
    if a == [] {
      assert a + b == b;
    } else {
      assert (a + b)[1..] == a[1..] + b;
      Join(w, Apply(s, a[0]), a[1..], s1, b, s2);
    }
  }

  /** A nonce is accepted twice in the run, which meets every assumption but one. */
  ghost predicate Repeats(s: State, steps: seq<Step>, v: nat, w: Assumption) {
    && Initial(s) && IsRun(s, steps) && IsRunBut(s, steps, w)
    && After(s, steps).accepted == [Accepted(1, 0, v), Accepted(2, 1, v)]
  }

  function ReadSteps(t: nat): seq<Step> {
    [Acquire(t)] + ([Answer(t, 0, true)] + ([Conclude(t)] + []))
  }

  /** With one node, an idle task takes the free lock and reads nonce v. */
  lemma SoloRead(w: Assumption, s: State, t: nat, v: nat)
    requires s.views == [v] && s.lock.None? && t < |s.tasks| && s.tasks[t].Idle?
    ensures Leads(w, s, ReadSteps(t),
                  State([v], Some(t), s.tasks[t := Signed(v, {0})], s.tickets + 1, s.accepted, s.lost))
  {
    assert NoReplies(s) == [Pending];
    var s1 := State([v], Some(t), s.tasks[t := Asking([Pending], 0)], s.tickets + 1, s.accepted, s.lost);
    var s2 := s1.(tasks := s.tasks[t := Asking([Nonce(v)], 0)]);
    var s3 := s1.(tasks := s.tasks[t := Signed(v, {0})]);
    assert Highest([Nonce(v)]) == Some(v) && Instances([Nonce(v)], v) == {0};
    assert [Pending][0 := Nonce(v)] == [Nonce(v)];
    assert s1.tasks[t := s2.tasks[t]] == s2.tasks;
    assert s2.tasks[t := s3.tasks[t]] == s3.tasks;
    Then(w, s2, Conclude(t), s3, [], s3);
    Then(w, s1, Answer(t, 0, true), s2, [Conclude(t)] + [], s3);
    Then(w, s, Acquire(t), s1, [Answer(t, 0, true)] + ([Conclude(t)] + []), s3);
  }

  /** And sends with it. */
  lemma SoloSend(w: Assumption, s: State, t: nat, v: nat)
    requires s.views == [v] && s.lock.None? && t < |s.tasks| && s.tasks[t].Idle?
    ensures Leads(w, s, ReadSteps(t) + [SendOk(t, 0)],
                  State([v], Some(t), s.tasks[t := Waiting(v, [Pending])], s.tickets + 1,
                        s.accepted + [Accepted(s.tickets + 1, t, v)], s.lost))
  {
    SoloRead(w, s, t, v);
    var s1 := State([v], Some(t), s.tasks[t := Signed(v, {0})], s.tickets + 1, s.accepted, s.lost);
    var s2 := s1.(tasks := s.tasks[t := Waiting(v, [Pending])],
                  accepted := s.accepted + [Accepted(s.tickets + 1, t, v)]);
    assert s1.tasks[t := s2.tasks[t]] == s2.tasks;
    assert NoReplies(s1) == [Pending];
    Then(w, s1, SendOk(t, 0), s2, [], s2);
    assert [SendOk(t, 0)] + [] == [SendOk(t, 0)];
    Join(w, s, ReadSteps(t), s1, [SendOk(t, 0)], s2);
  }

  /** Or its send is accepted, but the response is lost. */
  lemma SoloLost(s: State, t: nat, v: nat)
    requires s.views == [v] && s.lock.None? && t < |s.tasks| && s.tasks[t].Idle? && s.lost == []
    ensures Leads(NoneIsLost, s, ReadSteps(t) + ([SendLost(t)] + ([Arrive(0)] + [])),
                  State([v], None, s.tasks[t := Failed], s.tickets + 1,
                        s.accepted + [Accepted(s.tickets + 1, t, v)], []))
  {
    SoloRead(NoneIsLost, s, t, v);
    var x := Accepted(s.tickets + 1, t, v);
    var s1 := State([v], Some(t), s.tasks[t := Signed(v, {0})], s.tickets + 1, s.accepted, []);
    var s2 := State([v], None, s.tasks[t := Failed], s.tickets + 1, s.accepted, [x]);
    var s3 := State([v], None, s.tasks[t := Failed], s.tickets + 1, s.accepted + [x], []);
    assert s1.tasks[t := Failed] == s2.tasks;
    assert [] + [x] == [x];
    Then(NoneIsLost, s2, Arrive(0), s3, [], s3);
    Then(NoneIsLost, s1, SendLost(t), s2, [Arrive(0)] + [], s3);
    Join(NoneIsLost, s, ReadSteps(t), s1, [SendLost(t)] + ([Arrive(0)] + []), s3);
  }

  function DuoSteps(t: nat, arrives: bool): seq<Step> {
    [Acquire(t)] + (AnswerSteps(t, arrives) + ([Conclude(t)] + ([SendOk(t, 1)] + [])))
  }

  function WaitSteps(t: nat, v: nat): seq<Step> {
    [View(0, v + 1)] + (AnswerSteps(t, true) + ([Conclude(t)] + []))
  }

  /** Both nodes answer, or node 0 fails to. */
  function AnswerSteps(t: nat, arrives: bool): seq<Step> {
    [Answer(t, 0, arrives)] + ([Answer(t, 1, true)] + [])
  }

  lemma DuoAnswer(w: Assumption, s: State, t: nat, p: Phase, arrives: bool)
    requires |s.views| == 2 && t < |s.tasks| && s.tasks[t] == p
    requires (p.Asking? || p.Waiting?) && p.round == [Pending, Pending]
    ensures var reply := if arrives then Nonce(s.views[0]) else Error;
            Leads(w, s, AnswerSteps(t, arrives),
                  s.(tasks := s.tasks[t := p.(round := [reply, Nonce(s.views[1])])]))
  {
    var reply := if arrives then Nonce(s.views[0]) else Error;
    var s1 := s.(tasks := s.tasks[t := p.(round := [reply, Pending])]);
    var s2 := s.(tasks := s.tasks[t := p.(round := [reply, Nonce(s.views[1])])]);
    assert [Pending, Pending][0 := reply] == [reply, Pending];
    assert [reply, Pending][1 := Nonce(s.views[1])] == [reply, Nonce(s.views[1])];
    assert s1.tasks[t := s2.tasks[t]] == s2.tasks;
    Then(w, s1, Answer(t, 1, true), s2, [], s2);
    Then(w, s, Answer(t, 0, arrives), s1, [Answer(t, 1, true)] + [], s2);
  }

  /** With two nodes at nonce v, where node 0 may fail to answer, a task sends nonce v through node 1. */
  lemma DuoSend(w: Assumption, s: State, t: nat, v: nat, arrives: bool)
    requires |s.views| == 2 && s.views[1] == v && (arrives ==> s.views[0] == v)
    requires s.lock.None? && t < |s.tasks| && s.tasks[t].Idle? && (arrives || w == AllAnswer)
    ensures Leads(w, s, DuoSteps(t, arrives),
                  State(s.views, Some(t), s.tasks[t := Waiting(v, [Pending, Pending])], s.tickets + 1,
                        s.accepted + [Accepted(s.tickets + 1, t, v)], s.lost))
  {
    var reply := if arrives then Nonce(v) else Error;
    assert NoReplies(s) == [Pending, Pending];
    var s1 := State(s.views, Some(t), s.tasks[t := Asking([Pending, Pending], 0)], s.tickets + 1, s.accepted, s.lost);
    var s2 := s1.(tasks := s.tasks[t := Asking([reply, Nonce(v)], 0)]);
    var s3 := s1.(tasks := s.tasks[t := Signed(v, Instances([reply, Nonce(v)], v))]);
    var s4 := s1.(tasks := s.tasks[t := Waiting(v, [Pending, Pending])],
                  accepted := s.accepted + [Accepted(s.tickets + 1, t, v)]);
    DuoAnswer(w, s1, t, s1.tasks[t], arrives);
    assert [reply, Nonce(v)][..1] == [reply];
    assert Highest([reply, Nonce(v)]) == Some(v);
    assert s1.tasks[t := s2.tasks[t]] == s2.tasks;
    assert s2.tasks[t := s3.tasks[t]] == s3.tasks;
    assert s3.tasks[t := s4.tasks[t]] == s4.tasks;
    Then(w, s3, SendOk(t, 1), s4, [], s4);
    Then(w, s2, Conclude(t), s3, [SendOk(t, 1)] + [], s4);
    Join(w, s1, AnswerSteps(t, arrives), s2, [Conclude(t)] + ([SendOk(t, 1)] + []), s4);
    Then(w, s, Acquire(t), s1, AnswerSteps(t, arrives) + ([Conclude(t)] + ([SendOk(t, 1)] + [])), s4);
  }

  /** Node 0 takes the transaction into account, and the waiting task sees it and finishes. */
  lemma DuoWait(w: Assumption, s: State, t: nat, v: nat)
    requires s.views == [v, v] && s.lock == Some(t) && t < |s.tasks| && s.tasks[t] == Waiting(v, [Pending, Pending])
    ensures Leads(w, s, WaitSteps(t, v),
                  State([v + 1, v], None, s.tasks[t := Finished], s.tickets, s.accepted, s.lost))
  {
    var s1 := s.(views := [v + 1, v]);
    var s2 := s1.(tasks := s.tasks[t := Waiting(v, [Nonce(v + 1), Nonce(v)])]);
    var s3 := s1.(lock := None, tasks := s.tasks[t := Finished]);
    assert [v, v][0 := v + 1] == [v + 1, v];
    DuoAnswer(w, s1, t, s1.tasks[t], true);
    assert [Nonce(v + 1), Nonce(v)][..1] == [Nonce(v + 1)];
    assert Highest([Nonce(v + 1), Nonce(v)]) == Some(v + 1);
    assert s2.tasks[t := s3.tasks[t]] == s3.tasks;
    Then(w, s2, Conclude(t), s3, [], s3);
    Join(w, s1, AnswerSteps(t, true), s2, [Conclude(t)] + [], s3);
    Then(w, s, View(0, v + 1), s1, AnswerSteps(t, true) + ([Conclude(t)] + []), s3);
  }

  /** Two nodes are at nonce v, and the first task sends with it and sees node 0 take it into account. */
  function FirstSent(v: nat): State {
    State([v, v], Some(0), [Waiting(v, [Pending, Pending]), Idle], 1, [Accepted(1, 0, v)], [])
  }

  function FirstSeen(v: nat): State {
    State([v + 1, v], None, [Finished, Idle], 1, [Accepted(1, 0, v)], [])
  }

  lemma FirstPart(w: Assumption, v: nat)
    ensures Leads(w, AllAt(2, v), DuoSteps(0, true) + WaitSteps(0, v), FirstSeen(v))
  {
    DuoSend(w, AllAt(2, v), 0, v, true);
    assert AllAt(2, v).accepted + [Accepted(1, 0, v)] == [Accepted(1, 0, v)];
    DuoWait(w, FirstSent(v), 0, v);
    Join(w, AllAt(2, v), DuoSteps(0, true), FirstSent(v), WaitSteps(0, v), FirstSeen(v));
  }

  /** Two tasks, and some nodes that are all at nonce v. */
  function AllAt(nodes: nat, v: nat): State {
    State(seq(nodes, _ => v), None, [Idle, Idle], 0, [], [])
  }

  lemma SecondPart(w: Assumption, v: nat, s: State, arrives: bool)
    requires |s.views| == 2 && s.views[1] == v && (arrives ==> s.views[0] == v)
    requires s.lock.None? && s.tasks == [Finished, Idle] && s.tickets == 1 && s.accepted == [Accepted(1, 0, v)]
    requires arrives || w == AllAnswer
    ensures IsRun(s, DuoSteps(1, arrives)) && IsRunBut(s, DuoSteps(1, arrives), w)
    ensures After(s, DuoSteps(1, arrives)).accepted == [Accepted(1, 0, v), Accepted(2, 1, v)]
  {
    DuoSend(w, s, 1, v, arrives);
    assert [Accepted(1, 0, v)] + [Accepted(2, 1, v)] == [Accepted(1, 0, v), Accepted(2, 1, v)];
  }

  /** Of two nodes, the one that took the first transaction into account fails to answer the second task. */
  lemma UnansweredRoundRepeatsNonce(v: nat)
    ensures exists s, steps :: Repeats(s, steps, v, AllAnswer)
  {
    var s2 := FirstSeen(v);
    FirstPart(AllAnswer, v);
    SecondPart(AllAnswer, v, s2, false);
    var end := After(s2, DuoSteps(1, false));
    Join(AllAnswer, AllAt(2, v), DuoSteps(0, true) + WaitSteps(0, v), s2, DuoSteps(1, false), end);
    assert Repeats(AllAt(2, v), DuoSteps(0, true) + WaitSteps(0, v) + DuoSteps(1, false), v, AllAnswer);
  }

  /** The one node that took the first transaction into account takes that back. */
  lemma DecreasedViewRepeatsNonce(v: nat)
    ensures exists s, steps :: Repeats(s, steps, v, ViewsGrow)
  {
    var s2 := FirstSeen(v);
    var s3 := s2.(views := [v, v]);
    FirstPart(ViewsGrow, v);
    assert [v + 1, v][0 := v] == [v, v];
    SecondPart(ViewsGrow, v, s3, true);
    var end := After(s3, DuoSteps(1, true));
    Then(ViewsGrow, s2, View(0, v), s3, DuoSteps(1, true), end);
    Join(ViewsGrow, AllAt(2, v), DuoSteps(0, true) + WaitSteps(0, v), s2, [View(0, v)] + DuoSteps(1, true), end);
    assert Repeats(AllAt(2, v), DuoSteps(0, true) + WaitSteps(0, v) + ([View(0, v)] + DuoSteps(1, true)), v, ViewsGrow);
  }

  /** The second task, with one node that has not taken the first transaction into account. */
  lemma SoloAgain(w: Assumption, v: nat, s: State)
    requires s == State([v], None, [Failed, Idle], 1, [Accepted(1, 0, v)], [])
    ensures IsRun(s, ReadSteps(1) + [SendOk(1, 0)]) && IsRunBut(s, ReadSteps(1) + [SendOk(1, 0)], w)
    ensures After(s, ReadSteps(1) + [SendOk(1, 0)]).accepted == [Accepted(1, 0, v), Accepted(2, 1, v)]
  {
    SoloSend(w, s, 1, v);
    assert [Accepted(1, 0, v)] + [Accepted(2, 1, v)] == [Accepted(1, 0, v), Accepted(2, 1, v)];
  }

  /** The first task is dropped before the only node has taken its transaction into account. */
  lemma DroppedTaskRepeatsNonce(v: nat)
    ensures exists s, steps :: Repeats(s, steps, v, NoneIsDropped)
  {
    var s0, x := AllAt(1, v), Accepted(1, 0, v);
    assert s0.views == [v] && s0.accepted + [x] == [x];
    SoloSend(NoneIsDropped, s0, 0, v);
    var s1 := State([v], Some(0), [Waiting(v, [Pending]), Idle], 1, [x], []);
    var s2 := State([v], None, [Failed, Idle], 1, [x], []);
    SoloAgain(NoneIsDropped, v, s2);
    var again := ReadSteps(1) + [SendOk(1, 0)];
    Then(NoneIsDropped, s1, Cancel(0), s2, again, After(s2, again));
    Join(NoneIsDropped, s0, ReadSteps(0) + [SendOk(0, 0)], s1, [Cancel(0)] + again, After(s2, again));
    assert Repeats(s0, ReadSteps(0) + [SendOk(0, 0)] + ([Cancel(0)] + again), v, NoneIsDropped);
  }

  /** The first task gets an error, although the only node has accepted its transaction. */
  lemma LostSendRepeatsNonce(v: nat)
    ensures exists s, steps :: Repeats(s, steps, v, NoneIsLost)
  {
    var s0, x := AllAt(1, v), Accepted(1, 0, v);
    assert s0.views == [v] && s0.accepted + [x] == [x];
    SoloLost(s0, 0, v);
    var lost := ReadSteps(0) + ([SendLost(0)] + ([Arrive(0)] + []));
    var s1 := State([v], None, [Failed, Idle], 1, [x], []);
    SoloAgain(NoneIsLost, v, s1);
    var again := ReadSteps(1) + [SendOk(1, 0)];
    Join(NoneIsLost, s0, lost, s1, again, After(s1, again));
    assert Repeats(s0, lost + again, v, NoneIsLost);
  }

  // ---------------------------------------------------------------------------------------
  // A sender gets through
  // ---------------------------------------------------------------------------------------

  /** The first n nodes have answered. */
  function Answered(views: seq<nat>, n: nat): seq<Reply> {
    seq(|views|, i requires 0 <= i < |views| => if i < n then Nonce(views[i]) else Pending)
  }

  function AnswersOf(t: nat, n: nat): seq<Step> {
    if n == 0 then [] else AnswersOf(t, n - 1) + [Answer(t, n - 1, true)]
  }

  lemma {:induction false} NodesAnswer(w: Assumption, s: State, t: nat, p: Phase, n: nat)
    requires t < |s.tasks| && s.tasks[t] == p && (p.Asking? || p.Waiting?)
    requires p.round == NoReplies(s) && n <= |s.views|
    ensures Leads(w, s, AnswersOf(t, n), s.(tasks := s.tasks[t := p.(round := Answered(s.views, n))]))
  {
    var end := s.(tasks := s.tasks[t := p.(round := Answered(s.views, n))]);
    if n == 0 {
      assert Answered(s.views, 0) == NoReplies(s);
      assert s.tasks[t := p] == s.tasks;
    } else {
      var mid := s.(tasks := s.tasks[t := p.(round := Answered(s.views, n - 1))]);
      NodesAnswer(w, s, t, p, n - 1);
      assert Answered(s.views, n - 1)[n - 1 := Nonce(s.views[n - 1])] == Answered(s.views, n);
      assert mid.tasks[t := end.tasks[t]] == end.tasks;
      Then(w, mid, Answer(t, n - 1, true), end, [], end);
      assert [Answer(t, n - 1, true)] + [] == [Answer(t, n - 1, true)];
      Join(w, s, AnswersOf(t, n - 1), mid, [Answer(t, n - 1, true)], end);
    }
  }

  /** The node has the highest pending nonce. */
  predicate IsTop(views: seq<nat>, n: nat) {
    n < |views| && forall i :: 0 <= i < |views| ==> views[i] <= views[n]
  }

  lemma AnsweredTop(views: seq<nat>, n: nat)
    requires IsTop(views, n)
    ensures var round := Answered(views, |views|);
            Pending !in round && Highest(round) == Some(views[n]) && n in Instances(round, views[n])
            && AllNonces(round)
  {
    var round := Answered(views, |views|);
    assert round[n] == Nonce(views[n]);
    var max := Highest(round).value;
    assert Nonce(max) in round;
    var i :| 0 <= i < |round| && round[i] == Nonce(max);
    assert max == views[i];
  }

  /**
   If the lock is free and every node answers, a task that wants to send takes the lock, reads the highest
   pending nonce, and gets its transaction accepted with it by a node that reported it.
   */
  lemma SenderSends(w: Assumption, s: State, t: nat, n: nat)
    requires s.lock.None? && t < |s.tasks| && s.tasks[t].Idle? && IsTop(s.views, n)
    ensures Leads(w, s, [Acquire(t)] + (AnswersOf(t, |s.views|) + ([Conclude(t)] + ([SendOk(t, n)] + []))),
                  State(s.views, Some(t), s.tasks[t := Waiting(s.views[n], NoReplies(s))], s.tickets + 1,
                        s.accepted + [Accepted(s.tickets + 1, t, s.views[n])], s.lost))
  {
    var v, round := s.views[n], Answered(s.views, |s.views|);
    AnsweredTop(s.views, n);
    var s1 := State(s.views, Some(t), s.tasks[t := Asking(NoReplies(s), 0)], s.tickets + 1, s.accepted, s.lost);
    var s2 := s1.(tasks := s.tasks[t := Asking(round, 0)]);
    var s3 := s1.(tasks := s.tasks[t := Signed(v, Instances(round, v))]);
    var s4 := s1.(tasks := s.tasks[t := Waiting(v, NoReplies(s))],
                  accepted := s.accepted + [Accepted(s.tickets + 1, t, v)]);
    NodesAnswer(w, s1, t, s1.tasks[t], |s.views|);
    assert s1.tasks[t := s2.tasks[t]] == s2.tasks;
    assert s2.tasks[t := s3.tasks[t]] == s3.tasks;
    assert s3.tasks[t := s4.tasks[t]] == s4.tasks;
    Then(w, s3, SendOk(t, n), s4, [], s4);
    Then(w, s2, Conclude(t), s3, [SendOk(t, n)] + [], s4);
    Join(w, s1, AnswersOf(t, |s.views|), s2, [Conclude(t)] + ([SendOk(t, n)] + []), s4);
    Then(w, s, Acquire(t), s1, AnswersOf(t, |s.views|) + ([Conclude(t)] + ([SendOk(t, n)] + [])), s4);
  }

  /** And once a node has taken the transaction into account, it sees that, and gives the lock back. */
  lemma SenderFinishes(w: Assumption, s: State, t: nat, n: nat, nonce: nat)
    requires s.lock == Some(t) && t < |s.tasks| && s.tasks[t] == Waiting(nonce, NoReplies(s))
    requires IsTop(s.views, n) && s.views[n] > nonce
    ensures Leads(w, s, AnswersOf(t, |s.views|) + ([Conclude(t)] + []),
                  s.(lock := None, tasks := s.tasks[t := Finished]))
  {
    var round := Answered(s.views, |s.views|);
    AnsweredTop(s.views, n);
    var s1 := s.(tasks := s.tasks[t := Waiting(nonce, round)]);
    var s2 := s.(lock := None, tasks := s.tasks[t := Finished]);
    NodesAnswer(w, s, t, s.tasks[t], |s.views|);
    assert s1.tasks[t := s2.tasks[t]] == s2.tasks;
    Then(w, s1, Conclude(t), s2, [], s2);
    Join(w, s, AnswersOf(t, |s.views|), s1, [Conclude(t)] + [], s2);
  }
}
