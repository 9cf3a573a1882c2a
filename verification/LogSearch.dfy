/**
 Searching the logs of the swap contract: for the transaction that spent or refunded a payment, and
 for the transaction that sent it. The blocks are scanned in chunks, from the block of the swap up
 to the current block; the first block of a chunk is the last block of the previous one.
 */
module LogSearch {
  import opened Wrappers

  datatype Kind = ReceiverSpent | SenderRefunded | PaymentSent

  type Id = nat
  type Hash = nat
  type Tx = nat

  datatype Log = Log(kind: Kind, block: nat, id: Id, txHash: Option<Hash>)

  /** What a node says about the transaction with some hash. */
  datatype TxAnswer = TxRequestFailed | TxMissing | TxMalformed | TxFound(tx: Tx)

  datatype Found = Spent(tx: Tx) | Refunded(tx: Tx) | Sent(tx: Tx)

  datatype SearchError =
    | BlockRequestFailed
    | StatusRequestFailed
    | LogsRequestFailed
    | TransactionRequestFailed
    | TransactionIsMissing(txHash: Hash)
    | TransactionIsMalformed
    | EventHasNoHash

  type Answer = Result<Option<Found>, SearchError>

  /**
   The logs of the contract, the requests for logs that fail, the answers to requests for
   transactions, the current block if the request for it succeeds, and the configured number of blocks in
   a chunk.
   */
  datatype Node = Node(
    logs: seq<Log>,
    failing: (Kind, nat, nat) -> bool,
    transactions: Hash -> TxAnswer,
    current: Option<nat>,
    range: nat)

  datatype Search = ForSpend | ForPayment

  // ---------------------------------------------------------------------------------------
  // Queries
  // ---------------------------------------------------------------------------------------

  /** The logs of a kind in blocks lo, ..., hi. */
  function Query(logs: seq<Log>, kind: Kind, lo: nat, hi: nat): seq<Log> {
    if logs == [] then []
    else
      var rest := Query(logs[1..], kind, lo, hi);
      if logs[0].kind == kind && lo <= logs[0].block <= hi then [logs[0]] + rest else rest
  }

  /** The first log about a payment. */
  function FindId(logs: seq<Log>, id: Id): Option<Log> {
    if logs == [] then None else if logs[0].id == id then Some(logs[0]) else FindId(logs[1..], id)
  }

  predicate IsAbout(e: Log, kind: Kind, id: Id, lo: nat, hi: nat) {
    e.kind == kind && e.id == id && lo <= e.block <= hi
  }

  lemma {:induction false} FindQueryIs(logs: seq<Log>, kind: Kind, id: Id, lo: nat, hi: nat)
    ensures var r := FindId(Query(logs, kind, lo, hi), id);
            if r.Some? then r.value in logs && IsAbout(r.value, kind, id, lo, hi)
            else forall e :: e in logs ==> !IsAbout(e, kind, id, lo, hi)
  {
    if logs != [] {
      FindQueryIs(logs[1..], kind, id, lo, hi);
      var rest := Query(logs[1..], kind, lo, hi);
      assert ([logs[0]] + rest)[1..] == rest;
      assert forall e :: e in logs <==> e == logs[0] || e in logs[1..];
    }
  }

  // ---------------------------------------------------------------------------------------
  // One chunk
  // ---------------------------------------------------------------------------------------

  /** The event of a chunk that ends the search: a spend comes before a refund. */
  function Look(node: Node, search: Search, id: Id, lo: nat, hi: nat): Result<Option<Log>, SearchError> {
    if search.ForPayment? then
      if node.failing(PaymentSent, lo, hi) then Err(LogsRequestFailed)
      else Ok(FindId(Query(node.logs, PaymentSent, lo, hi), id))
    else if node.failing(ReceiverSpent, lo, hi) then Err(LogsRequestFailed)
    else
      var spent := FindId(Query(node.logs, ReceiverSpent, lo, hi), id);
      if spent.Some? then Ok(spent)
      else if node.failing(SenderRefunded, lo, hi) then Err(LogsRequestFailed)
      else Ok(FindId(Query(node.logs, SenderRefunded, lo, hi), id))
  }

  /** What the transaction of an event ends the search with; a payment may have been dropped again. */
  function Outcome(node: Node, e: Log): Answer {
    if e.txHash.None? then Err(EventHasNoHash)
    else
      match node.transactions(e.txHash.value)
      case TxRequestFailed => Err(TransactionRequestFailed)
      case TxMissing => if e.kind.PaymentSent? then Ok(None) else Err(TransactionIsMissing(e.txHash.value))
      case TxMalformed => Err(TransactionIsMalformed)
      case TxFound(tx) =>
        Ok(Some(match e.kind
                case ReceiverSpent => Spent(tx)
                case SenderRefunded => Refunded(tx)
                case PaymentSent => Sent(tx)))
  }

  datatype Scan = Searching(from: nat) | Done(answer: Answer)

  function Last(node: Node, from: nat): nat {
    if node.current.None? || node.current.value < from then from else node.current.value
  }

  function ChunkEnd(node: Node, from: nat): nat {
    if Last(node, from) < from + node.range then Last(node, from) else from + node.range
  }

  function Round(node: Node, search: Search, id: Id, from: nat): Scan {
    var to := ChunkEnd(node, from);
    var event := Look(node, search, id, from, to);
    if event.Err? then Done(Err(event.error))
    else if event.value.Some? then Done(Outcome(node, event.value.value))
    else if to >= Last(node, from) then Done(Ok(None))
    else Searching(to)
  }

  function Rounds(node: Node, search: Search, id: Id, n: nat, from: nat): Scan
    decreases n
  {
    if n == 0 then Searching(from)
    else
      var scan := Round(node, search, id, from);
      if scan.Done? then scan else Rounds(node, search, id, n - 1, scan.from)
  }

  lemma {:induction false} OneMoreRound(node: Node, search: Search, id: Id, n: nat, from: nat, at: nat)
    requires Rounds(node, search, id, n, from) == Searching(at)
    ensures Rounds(node, search, id, n + 1, from) == Round(node, search, id, at)
  {
    var scan := Round(node, search, id, from);
    if n > 0 {
      OneMoreRound(node, search, id, n - 1, scan.from, at);
    } else if scan.Searching? {
      assert Rounds(node, search, id, 0, scan.from) == scan;
    }
  }

  // ---------------------------------------------------------------------------------------
  // The searches
  // ---------------------------------------------------------------------------------------

  /** A request for the logs of a chunk fails. */
  predicate Fails(node: Node, search: Search, lo: nat, hi: nat) {
    if search.ForPayment? then node.failing(PaymentSent, lo, hi)
    else node.failing(ReceiverSpent, lo, hi) || node.failing(SenderRefunded, lo, hi)
  }

  /**
   The search ends: the chunks have a length, or there is no block after the first one, or in the first
   one a request fails or there is a wanted event.
   */
  ghost predicate Ends(node: Node, search: Search, id: Id, from: nat) {
    || node.range >= 1
    || node.current.None? || node.current.value <= from
    || Fails(node, search, from, from)
    || !NoneWanted(node, search, id, from, from)
  }

  lemma FirstChunkEndsIff(node: Node, search: Search, id: Id, from: nat)
    requires node.range == 0
    ensures Round(node, search, id, from).Done? <==> Ends(node, search, id, from)
  {
    FindQueryIs(node.logs, ReceiverSpent, id, from, from);
    FindQueryIs(node.logs, SenderRefunded, id, from, from);
    FindQueryIs(node.logs, PaymentSent, id, from, from);
  }

  /** The answer that some number of rounds gives; without the current block there is none to search up to. */
  ghost predicate IsAnswer(node: Node, search: Search, id: Id, from: nat, r: Answer) {
    if node.current.None? then r == Err(BlockRequestFailed)
    else exists n: nat :: Rounds(node, search, id, n, from) == Done(r)
  }

  method SearchForSwapTxSpend(node: Node, id: Id, searchFrom: nat) returns (r: Answer)
    requires Ends(node, ForSpend, id, searchFrom)
    ensures IsAnswer(node, ForSpend, id, searchFrom, r)
  {
    if node.current.None? {
      return Err(BlockRequestFailed);
    }
    var current := node.current.value;
    if current < searchFrom {
      current := searchFrom;
    }
    var from := searchFrom;
    ghost var n := 0;
    while true
      invariant searchFrom <= from <= current
      invariant current == Last(node, from)
      invariant Ends(node, ForSpend, id, from)
      invariant Rounds(node, ForSpend, id, n, searchFrom) == Searching(from)
      decreases current - from
    {
      OneMoreRound(node, ForSpend, id, n, searchFrom, from);
      if node.range == 0 {
        FirstChunkEndsIff(node, ForSpend, id, from);
      }
      n := n + 1;
      var to := if current < from + node.range then current else from + node.range;
      if node.failing(ReceiverSpent, from, to) {
        return Err(LogsRequestFailed);
      }
      var spent := FindId(Query(node.logs, ReceiverSpent, from, to), id);
      if spent.Some? {
        return Outcome(node, spent.value);
      }
      if node.failing(SenderRefunded, from, to) {
        return Err(LogsRequestFailed);
      }
      var refunded := FindId(Query(node.logs, SenderRefunded, from, to), id);
      if refunded.Some? {
        return Outcome(node, refunded.value);
      }
      if to >= current {
        break;
      }
      from := to;
    }
    return Ok(None);
  }

  /** `status` is the state of the payment in the contract, if the request for it succeeds; 0 is uninitialized. */
  method CheckIfMyPaymentSent(node: Node, id: Id, status: Option<nat>, searchFrom: nat) returns (r: Answer)
    requires Ends(node, ForPayment, id, searchFrom)
    ensures status == None ==> r == Err(StatusRequestFailed)
    ensures status == Some(0) ==> r == Ok(None)
    ensures status.Some? && status.value != 0 ==> IsAnswer(node, ForPayment, id, searchFrom, r)
  {
    if status.None? {
      return Err(StatusRequestFailed);
    }
    if status.value == 0 {
      return Ok(None);
    }
    if node.current.None? {
      return Err(BlockRequestFailed);
    }
    var current := node.current.value;
    if current < searchFrom {
      current := searchFrom;
    }
    var from := searchFrom;
    ghost var n := 0;
    while true
      invariant searchFrom <= from <= current
      invariant current == Last(node, from)
      invariant Ends(node, ForPayment, id, from)
      invariant Rounds(node, ForPayment, id, n, searchFrom) == Searching(from)
      decreases current - from
    {
      OneMoreRound(node, ForPayment, id, n, searchFrom, from);
      if node.range == 0 {
        FirstChunkEndsIff(node, ForPayment, id, from);
      }
      n := n + 1;
      var to := if current < from + node.range then current else from + node.range;
      if node.failing(PaymentSent, from, to) {
        return Err(LogsRequestFailed);
      }
      var found := FindId(Query(node.logs, PaymentSent, from, to), id);
      if found.Some? {
        return Outcome(node, found.value);
      }
      if to >= current {
        return Ok(None);
      }
      from := to;
    }
  }

  /** Only one answer is the answer. */
  lemma AnswerIsUnique(node: Node, search: Search, id: Id, from: nat, r: Answer, s: Answer)
    requires IsAnswer(node, search, id, from, r) && IsAnswer(node, search, id, from, s)
    ensures r == s
  {
    if node.current.Some? {
      var n: nat :| Rounds(node, search, id, n, from) == Done(r);
      var m: nat :| Rounds(node, search, id, m, from) == Done(s);
      MoreRounds(node, search, id, n, n + m, from);
      MoreRounds(node, search, id, m, n + m, from);
    }
  }

  // ---------------------------------------------------------------------------------------
  // What a search finds
  // ---------------------------------------------------------------------------------------

  /** The event ends the search: it is about the payment and happened in the searched blocks. */
  predicate IsWanted(search: Search, id: Id, e: Log, lo: nat, hi: nat) {
    if search.ForPayment? then IsAbout(e, PaymentSent, id, lo, hi)
    else IsAbout(e, ReceiverSpent, id, lo, hi) || IsAbout(e, SenderRefunded, id, lo, hi)
  }

  ghost predicate NoneWanted(node: Node, search: Search, id: Id, lo: nat, hi: nat) {
    forall e :: e in node.logs ==> !IsWanted(search, id, e, lo, hi)
  }

  lemma LookIs(node: Node, search: Search, id: Id, lo: nat, hi: nat)
    ensures var r := Look(node, search, id, lo, hi);
            && (r.Ok? && r.value.None? ==> NoneWanted(node, search, id, lo, hi))
            && (r.Ok? && r.value.Some? ==> r.value.value in node.logs && IsWanted(search, id, r.value.value, lo, hi))
            && (r.Err? ==> r.error == LogsRequestFailed && exists k :: node.failing(k, lo, hi))
  {
    FindQueryIs(node.logs, ReceiverSpent, id, lo, hi);
    FindQueryIs(node.logs, SenderRefunded, id, lo, hi);
    FindQueryIs(node.logs, PaymentSent, id, lo, hi);
  }

  /** The answer comes from a wanted event that happened at most a chunk after the first wanted one. */
  ghost predicate ComesFrom(node: Node, search: Search, id: Id, from: nat, e: Log, r: Answer) {
    && e in node.logs
    && IsWanted(search, id, e, from, Last(node, from))
    && r == Outcome(node, e)
    && forall d :: d in node.logs && IsWanted(search, id, d, from, Last(node, from)) ==> e.block <= d.block + node.range
  }

  ghost predicate NeverFails(node: Node) {
    forall k, lo, hi :: !node.failing(k, lo, hi)
  }

  ghost predicate IsRight(node: Node, search: Search, id: Id, from: nat, r: Answer) {
    if r == Err(LogsRequestFailed) then !NeverFails(node)
    else if NoneWanted(node, search, id, from, Last(node, from)) then r == Ok(None)
    else exists e :: ComesFrom(node, search, id, from, e, r)
  }

  /** Whatever the chunks, a search that ends either met a failing request or is right about all the blocks. */
  lemma {:induction false} SearchIsRight(node: Node, search: Search, id: Id, n: nat, from: nat)
    requires Rounds(node, search, id, n, from).Done?
    ensures IsRight(node, search, id, from, Rounds(node, search, id, n, from).answer)
    decreases n
  {
    var to := ChunkEnd(node, from);
    var hi := Last(node, from);
    LookIs(node, search, id, from, to);
    var look := Look(node, search, id, from, to);
    var r := Rounds(node, search, id, n, from).answer;
    if look.Ok? && look.value.Some? {
      assert ComesFrom(node, search, id, from, look.value.value, r);
    } else if look.Ok? && to < hi {
      SearchIsRight(node, search, id, n - 1, to);
      assert Last(node, to) == hi;
      if r != Err(LogsRequestFailed) && !NoneWanted(node, search, id, from, hi) {
        var d :| d in node.logs && IsWanted(search, id, d, from, hi);
        assert IsWanted(search, id, d, to, hi);
        var e :| ComesFrom(node, search, id, to, e, r);
        assert ComesFrom(node, search, id, from, e, r);
      }
    }
  }

  /** At most one event ends the search, as the contract settles a payment once. */
  ghost predicate HappensOnce(node: Node, search: Search, id: Id) {
    forall d, e | d in node.logs && e in node.logs ::
      IsWanted(search, id, d, 0, d.block) && IsWanted(search, id, e, 0, e.block) ==> d == e
  }

  /** Nothing is found exactly when no event happened; otherwise the event that happened is found. */
  lemma SearchFindsTheEvent(node: Node, search: Search, id: Id, n: nat, from: nat, r: Answer, e: Log)
    requires HappensOnce(node, search, id)
    requires Rounds(node, search, id, n, from) == Done(r) && r != Err(LogsRequestFailed)
    requires e in node.logs && IsWanted(search, id, e, 0, e.block)
    ensures r == if from <= e.block <= Last(node, from) then Outcome(node, e) else Ok(None)
  {
    SearchIsRight(node, search, id, n, from);
    var hi := Last(node, from);
    if from <= e.block <= hi {
      assert IsWanted(search, id, e, from, hi);
      var d :| ComesFrom(node, search, id, from, d, r);
      assert IsWanted(search, id, d, 0, d.block);
    } else {
      forall d | d in node.logs ensures !IsWanted(search, id, d, from, hi) {
        assert IsWanted(search, id, d, from, hi) ==> IsWanted(search, id, d, 0, d.block);
      }
    }
  }

  /** The length of the chunks does not matter, so a search agrees with a single query of all the blocks. */
  lemma ChunksDoNotMatter(node: Node, search: Search, id: Id, from: nat, n: nat, r: Answer, other: nat, m: nat,
                          s: Answer)
    requires HappensOnce(node, search, id)
    requires Rounds(node, search, id, n, from) == Done(r) && r != Err(LogsRequestFailed)
    requires Rounds(node.(range := other), search, id, m, from) == Done(s) && s != Err(LogsRequestFailed)
    ensures r == s
  {
    var node' := node.(range := other);
    var hi := Last(node, from);
    if NoneWanted(node, search, id, from, hi) {
      SearchIsRight(node, search, id, n, from);
      SearchIsRight(node', search, id, m, from);
      assert NoneWanted(node', search, id, from, hi);
    } else {
      var e :| e in node.logs && IsWanted(search, id, e, from, hi);
      SearchFindsTheEvent(node, search, id, n, from, r, e);
      SearchFindsTheEvent(node', search, id, m, from, s, e);
      assert Outcome(node, e) == Outcome(node', e);
    }
  }

  // ---------------------------------------------------------------------------------------
  // What the answers say
  // ---------------------------------------------------------------------------------------

  /** In blocks lo, ..., hi there is an event about the payment whose transaction the node answers for so. */
  ghost predicate IsThere(node: Node, kind: Kind, id: Id, lo: nat, hi: nat, answer: TxAnswer) {
    exists e :: e in node.logs && IsAbout(e, kind, id, lo, hi)
                && e.txHash.Some? && node.transactions(e.txHash.value) == answer
  }

  ghost predicate IsMissingAt(node: Node, kind: Kind, id: Id, lo: nat, hi: nat, h: Hash) {
    exists e :: e in node.logs && IsAbout(e, kind, id, lo, hi)
                && e.txHash == Some(h) && node.transactions(h) == TxMissing
  }

  ghost predicate HasNoHash(node: Node, kind: Kind, id: Id, lo: nat, hi: nat) {
    exists e :: e in node.logs && IsAbout(e, kind, id, lo, hi) && e.txHash == None
  }

  /** The payment was spent or refunded. */
  ghost predicate IsEither(node: Node, id: Id, lo: nat, hi: nat, answer: TxAnswer) {
    IsThere(node, ReceiverSpent, id, lo, hi, answer) || IsThere(node, SenderRefunded, id, lo, hi, answer)
  }

  /** Why the search for a spend gives an answer. */
  ghost predicate IsSpendReason(node: Node, id: Id, lo: nat, hi: nat, r: Answer) {
    match r
    case Ok(Some(Spent(tx))) => IsThere(node, ReceiverSpent, id, lo, hi, TxFound(tx))
    case Ok(Some(Refunded(tx))) => IsThere(node, SenderRefunded, id, lo, hi, TxFound(tx))
    case Ok(Some(Sent(_))) => false
    case Ok(None) => forall e :: e in node.logs ==>
      !IsAbout(e, ReceiverSpent, id, lo, hi) && !IsAbout(e, SenderRefunded, id, lo, hi)
    case Err(LogsRequestFailed) =>
      exists a: nat, b: nat :: node.failing(ReceiverSpent, a, b) || node.failing(SenderRefunded, a, b)
    case Err(TransactionRequestFailed) => IsEither(node, id, lo, hi, TxRequestFailed)
    case Err(TransactionIsMissing(h)) =>
      IsMissingAt(node, ReceiverSpent, id, lo, hi, h) || IsMissingAt(node, SenderRefunded, id, lo, hi, h)
    case Err(TransactionIsMalformed) => IsEither(node, id, lo, hi, TxMalformed)
    case Err(EventHasNoHash) =>
      HasNoHash(node, ReceiverSpent, id, lo, hi) || HasNoHash(node, SenderRefunded, id, lo, hi)
    case Err(_) => false
  }

  /** Why the search for the payment does: a payment whose transaction is missing was dropped again. */
  ghost predicate IsSentReason(node: Node, id: Id, lo: nat, hi: nat, r: Answer) {
    match r
    case Ok(Some(Sent(tx))) => IsThere(node, PaymentSent, id, lo, hi, TxFound(tx))
    case Ok(Some(_)) => false
    case Ok(None) =>
      || (forall e :: e in node.logs ==> !IsAbout(e, PaymentSent, id, lo, hi))
      || IsThere(node, PaymentSent, id, lo, hi, TxMissing)
    case Err(LogsRequestFailed) => exists a: nat, b: nat :: node.failing(PaymentSent, a, b)
    case Err(TransactionRequestFailed) => IsThere(node, PaymentSent, id, lo, hi, TxRequestFailed)
    case Err(TransactionIsMalformed) => IsThere(node, PaymentSent, id, lo, hi, TxMalformed)
    case Err(EventHasNoHash) => HasNoHash(node, PaymentSent, id, lo, hi)
    case Err(_) => false
  }

  lemma SpendOutcome(node: Node, id: Id, lo: nat, hi: nat, e: Log)
    requires e in node.logs && IsWanted(ForSpend, id, e, lo, hi)
    ensures IsSpendReason(node, id, lo, hi, Outcome(node, e))
  {
  }

  lemma SentOutcome(node: Node, id: Id, lo: nat, hi: nat, e: Log)
    requires e in node.logs && IsWanted(ForPayment, id, e, lo, hi)
    ensures IsSentReason(node, id, lo, hi, Outcome(node, e))
  {
  }

  /** A search stops for a failing request only if one of its own fails. */
  lemma {:induction false} FailureIsReal(node: Node, search: Search, id: Id, n: nat, from: nat)
    requires Rounds(node, search, id, n, from) == Done(Err(LogsRequestFailed))
    ensures exists a: nat, b: nat :: Fails(node, search, a, b)
    decreases n
  {
    var to := ChunkEnd(node, from);
    var look := Look(node, search, id, from, to);
    if look.Err? {
      assert Fails(node, search, from, to);
    } else if look.value.None? && to < Last(node, from) {
      FailureIsReal(node, search, id, n - 1, to);
    }
  }

  /** Every answer of the search for a spend has its reason, without any assumption on the events. */
  lemma SpendAnswerIsRight(node: Node, id: Id, from: nat, r: Answer)
    requires IsAnswer(node, ForSpend, id, from, r) && node.current.Some?
    ensures IsSpendReason(node, id, from, Last(node, from), r)
  {
    var n: nat :| Rounds(node, ForSpend, id, n, from) == Done(r);
    SearchIsRight(node, ForSpend, id, n, from);
    var hi := Last(node, from);
    if r == Err(LogsRequestFailed) {
      FailureIsReal(node, ForSpend, id, n, from);
      var a: nat, b: nat :| Fails(node, ForSpend, a, b);
      assert node.failing(ReceiverSpent, a, b) || node.failing(SenderRefunded, a, b);
    } else if NoneWanted(node, ForSpend, id, from, hi) {
      forall e | e in node.logs
        ensures !IsAbout(e, ReceiverSpent, id, from, hi) && !IsAbout(e, SenderRefunded, id, from, hi)
      {
        assert !IsWanted(ForSpend, id, e, from, hi);
      }
    } else {
      var e :| ComesFrom(node, ForSpend, id, from, e, r);
      SpendOutcome(node, id, from, hi, e);
    }
  }

  lemma SentAnswerIsRight(node: Node, id: Id, from: nat, r: Answer)
    requires IsAnswer(node, ForPayment, id, from, r) && node.current.Some?
    ensures IsSentReason(node, id, from, Last(node, from), r)
  {
    var n: nat :| Rounds(node, ForPayment, id, n, from) == Done(r);
    SearchIsRight(node, ForPayment, id, n, from);
    var hi := Last(node, from);
    if r == Err(LogsRequestFailed) {
      FailureIsReal(node, ForPayment, id, n, from);
      var a: nat, b: nat :| Fails(node, ForPayment, a, b);
      assert node.failing(PaymentSent, a, b);
    } else if NoneWanted(node, ForPayment, id, from, hi) {
      forall e | e in node.logs ensures !IsAbout(e, PaymentSent, id, from, hi) {
        assert !IsWanted(ForPayment, id, e, from, hi);
      }
    } else {
      var e :| ComesFrom(node, ForPayment, id, from, e, r);
      SentOutcome(node, id, from, hi, e);
    }
  }

  /**
   If at most one event settles the payment and the requests for logs succeed, a reason gives its answer:
   the answer is the one for which there is a reason, and no other.
   */
  lemma SpendAnswerIff(node: Node, id: Id, from: nat, r: Answer, s: Answer)
    requires HappensOnce(node, ForSpend, id)
    requires IsAnswer(node, ForSpend, id, from, r) && node.current.Some?
    requires r != Err(LogsRequestFailed) && s != Err(LogsRequestFailed)
    ensures r == s <==> IsSpendReason(node, id, from, Last(node, from), s)
  {
    SpendAnswerIsRight(node, id, from, r);
    if IsSpendReason(node, id, from, Last(node, from), s) {
      SpendReasonIsUnique(node, id, from, Last(node, from), r, s);
    }
  }

  lemma SpendReasonIsUnique(node: Node, id: Id, lo: nat, hi: nat, r: Answer, s: Answer)
    requires HappensOnce(node, ForSpend, id)
    requires r != Err(LogsRequestFailed) && s != Err(LogsRequestFailed)
    requires IsSpendReason(node, id, lo, hi, r) && IsSpendReason(node, id, lo, hi, s)
    ensures r == s
  {
    if r != Ok(None) {
      var d := SpendEvent(node, id, lo, hi, r);
      if s != Ok(None) {
        var e := SpendEvent(node, id, lo, hi, s);
        assert IsWanted(ForSpend, id, d, 0, d.block) && IsWanted(ForSpend, id, e, 0, e.block);
      }
    } else if s != Ok(None) {
      var e := SpendEvent(node, id, lo, hi, s);
    }
  }

  /** The event that is the reason for an answer. */
  lemma SpendEvent(node: Node, id: Id, lo: nat, hi: nat, r: Answer) returns (e: Log)
    requires IsSpendReason(node, id, lo, hi, r) && r != Ok(None) && r != Err(LogsRequestFailed)
    ensures e in node.logs && IsWanted(ForSpend, id, e, lo, hi) && r == Outcome(node, e)
  {
    match r
    case Ok(Some(Spent(tx))) =>
      e :| e in node.logs && IsAbout(e, ReceiverSpent, id, lo, hi)
           && e.txHash.Some? && node.transactions(e.txHash.value) == TxFound(tx);
    case Ok(Some(Refunded(tx))) =>
      e :| e in node.logs && IsAbout(e, SenderRefunded, id, lo, hi)
           && e.txHash.Some? && node.transactions(e.txHash.value) == TxFound(tx);
    case Err(TransactionRequestFailed) => e := EitherEvent(node, id, lo, hi, TxRequestFailed);
    case Err(TransactionIsMalformed) => e := EitherEvent(node, id, lo, hi, TxMalformed);
    case Err(TransactionIsMissing(h)) =>
      e :| e in node.logs && IsWanted(ForSpend, id, e, lo, hi)
           && e.txHash == Some(h) && node.transactions(h) == TxMissing;
    case Err(EventHasNoHash) =>
      e :| e in node.logs && IsWanted(ForSpend, id, e, lo, hi) && e.txHash == None;
  }

  lemma EitherEvent(node: Node, id: Id, lo: nat, hi: nat, answer: TxAnswer) returns (e: Log)
    requires IsEither(node, id, lo, hi, answer)
    ensures e in node.logs && IsWanted(ForSpend, id, e, lo, hi)
    ensures e.txHash.Some? && node.transactions(e.txHash.value) == answer
  {
    e :| e in node.logs && IsWanted(ForSpend, id, e, lo, hi)
         && e.txHash.Some? && node.transactions(e.txHash.value) == answer;
  }

  /** The same for the search for the payment. */
  lemma SentAnswerIff(node: Node, id: Id, from: nat, r: Answer, s: Answer)
    requires HappensOnce(node, ForPayment, id)
    requires IsAnswer(node, ForPayment, id, from, r) && node.current.Some?
    requires r != Err(LogsRequestFailed) && s != Err(LogsRequestFailed)
    ensures r == s <==> IsSentReason(node, id, from, Last(node, from), s)
  {
    var hi := Last(node, from);
    SentAnswerIsRight(node, id, from, r);
    if IsSentReason(node, id, from, hi, s) && exists e :: e in node.logs && IsAbout(e, PaymentSent, id, from, hi) {
      var d := SentEvent(node, id, from, hi, r);
      var e := SentEvent(node, id, from, hi, s);
      assert IsWanted(ForPayment, id, d, 0, d.block) && IsWanted(ForPayment, id, e, 0, e.block);
    }
  }

  lemma SentEvent(node: Node, id: Id, lo: nat, hi: nat, r: Answer) returns (e: Log)
    requires IsSentReason(node, id, lo, hi, r) && r != Err(LogsRequestFailed)
    requires exists e :: e in node.logs && IsAbout(e, PaymentSent, id, lo, hi)
    ensures e in node.logs && IsAbout(e, PaymentSent, id, lo, hi) && r == Outcome(node, e)
  {
    var answer := match r
                  case Ok(Some(found)) => TxFound(found.tx)
                  case Err(TransactionRequestFailed) => TxRequestFailed
                  case Err(TransactionIsMalformed) => TxMalformed
                  case _ => TxMissing;
    if r == Err(EventHasNoHash) {
      e :| e in node.logs && IsAbout(e, PaymentSent, id, lo, hi) && e.txHash == None;
    } else {
      e :| e in node.logs && IsAbout(e, PaymentSent, id, lo, hi)
           && e.txHash.Some? && node.transactions(e.txHash.value) == answer;
    }
  }

  // ---------------------------------------------------------------------------------------
  // Termination
  // ---------------------------------------------------------------------------------------

  /** With chunks of r >= 1 blocks, at most as many rounds are needed as there are blocks to search. */
  lemma {:induction false} SearchEnds(node: Node, search: Search, id: Id, from: nat)
    requires node.range >= 1
    ensures Rounds(node, search, id, Last(node, from) - from + 1, from).Done?
    decreases Last(node, from) - from
  {
    var scan := Round(node, search, id, from);
    if scan.Searching? {
      SearchEnds(node, search, id, scan.from);
      var k := Last(node, from) - scan.from + 1;
      MoreRounds(node, search, id, k, Last(node, from) - from, scan.from);
    }
  }

  lemma {:induction false} MoreRounds(node: Node, search: Search, id: Id, n: nat, m: nat, from: nat)
    requires n <= m && Rounds(node, search, id, n, from).Done?
    ensures Rounds(node, search, id, m, from) == Rounds(node, search, id, n, from)
    decreases n
  {
    var scan := Round(node, search, id, from);
    if scan.Searching? {
      MoreRounds(node, search, id, n - 1, m - 1, scan.from);
    }
  }

  /** The rounds end exactly under the condition that can be checked before them. */
  lemma SearchEndsIff(node: Node, search: Search, id: Id, from: nat)
    ensures (exists n: nat :: Rounds(node, search, id, n, from).Done?) <==> Ends(node, search, id, from)
  {
    if node.range >= 1 {
      SearchEnds(node, search, id, from);
    } else {
      FirstChunkEndsIff(node, search, id, from);
      if Ends(node, search, id, from) {
        assert Rounds(node, search, id, 1, from).Done?;
      } else {
        forall n: nat ensures !Rounds(node, search, id, n, from).Done? {
          StuckWithoutLength(node, search, id, n, from);
        }
      }
    }
  }

  lemma {:induction false} StuckWithoutLength(node: Node, search: Search, id: Id, n: nat, from: nat)
    requires !Ends(node, search, id, from)
    ensures Rounds(node, search, id, n, from) == Searching(from)
  {
    FirstChunkEndsIff(node, search, id, from);
    if n > 0 {
      StuckWithoutLength(node, search, id, n - 1, from);
    }
  }

  /** An instance: without logs and one block behind, a search with chunks of length 0 goes on forever. */
  lemma SearchWithoutLengthIsEndless(id: Id, search: Search, n: nat)
    ensures var node := Node([], (_, _, _) => false, _ => TxMissing, Some(1), 0);
            Rounds(node, search, id, n, 0) == Searching(0)
  {
    var node := Node([], (_, _, _) => false, _ => TxMissing, Some(1), 0);
    StuckWithoutLength(node, search, id, n, 0);
  }
}
