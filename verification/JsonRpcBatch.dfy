/**
 Batches of JSON-RPC calls: the results are returned in the order of the requests, whatever the
 order of the responses (JSON-RPC 2.0 Specification, section 6).

 A request is its id. How a result is decoded is a parameter.
 */
module JsonRpcBatch {
  import opened Wrappers

  const U64_MAX := 0xFFFF_FFFF_FFFF_FFFF

  type Id = nat
  type Address = string
  type Json = string

  /** `error` is `None` for null. */
  datatype Response = Response(id: Id, result: Json, error: Option<Json>)

  /** What the transport gives: an error, or the responder and its response. */
  datatype Transport =
    | NoAnswer(reason: string)
    | Single(remote: Address, response: Response)
    | Batch(remote: Address, responses: seq<Response>)

  datatype RpcError =
    | InvalidRequest
    | TransportError(reason: string)
    | ExpectedBatch(remote: Address)
    | WrongNumber(remote: Address, expected: nat, found: nat)
    | NoResponseTo(remote: Address, id: Id)
    | ResponseError(remote: Address, error: Json)
    | NotDecoded(remote: Address, response: Response)

  // ---------------------------------------------------------------------------------------
  // Processing a response
  // ---------------------------------------------------------------------------------------

  function ProcessSingle<T>(decode: Json -> Option<T>, remote: Address, response: Response): Result<T, RpcError> {
    if response.error.Some? then Err(ResponseError(remote, response.error.value))
    else
      var decoded := decode(response.result);
      if decoded.Some? then Ok(decoded.value) else Err(NotDecoded(remote, response))
  }

  /** The responses by their ids; of several with the same id the last one stays. */
  function ByIds(responses: seq<Response>): map<Id, Response> {
    if responses == [] then map[]
    else
      var last := responses[|responses| - 1];
      ByIds(responses[..|responses| - 1])[last.id := last]
  }

  /** Puts results before the others, if there are no errors. */
  function After<T>(results: seq<T>, others: Result<seq<T>, RpcError>): Result<seq<T>, RpcError> {
    if others.Err? then others else Ok(results + others.value)
  }

  lemma AfterNothing<T>(results: seq<T>, others: Result<seq<T>, RpcError>)
    ensures After([], others) == others && After(results, Ok([])) == Ok(results)
  {
    assert results + [] == results;
    if others.Ok? {
      assert [] + others.value == others.value;
    }
  }

  lemma AfterAfter<T>(results: seq<T>, x: T, others: Result<seq<T>, RpcError>)
    ensures After(results, After([x], others)) == After(results + [x], others)
  {
    if others.Ok? {
      assert results + ([x] + others.value) == results + [x] + others.value;
    }
  }

  /** The results for the ids in order, up to the first one that has none; a response is used once. */
  function Collect<T>(decode: Json -> Option<T>, remote: Address, responses: map<Id, Response>, ids: seq<Id>)
    : Result<seq<T>, RpcError>
  {
    if ids == [] then Ok([])
    else if ids[0] !in responses then Err(NoResponseTo(remote, ids[0]))
    else
      var first := ProcessSingle(decode, remote, responses[ids[0]]);
      if first.Err? then Err(first.error)
      else
        After([first.value], Collect(decode, remote, responses - {ids[0]}, ids[1..]))
  }

  function ProcessBatch<T>(decode: Json -> Option<T>, transport: Transport, ids: seq<Id>): Result<seq<T>, RpcError> {
    match transport
    case NoAnswer(reason) => Err(TransportError(reason))
    case Single(remote, _) => Err(ExpectedBatch(remote))
    case Batch(remote, responses) =>
      var m := ByIds(responses);
      if |m| != |ids| then Err(WrongNumber(remote, |ids|, |m|)) else Collect(decode, remote, m, ids)
  }

  method ProcessTransportBatchResult<T>(decode: Json -> Option<T>, transport: Transport, ids: seq<Id>)
    returns (r: Result<seq<T>, RpcError>)
    ensures r == ProcessBatch(decode, transport, ids)
  {
    if transport.NoAnswer? {
      return Err(TransportError(transport.reason));
    }
    if transport.Single? {
      return Err(ExpectedBatch(transport.remote));
    }
    var remote, responses := transport.remote, transport.responses;
    var responseMap: map<Id, Response> := map[];
    for i := 0 to |responses|
      invariant responseMap == ByIds(responses[..i])
    {
      assert responses[..i + 1][..i] == responses[..i];
      responseMap := responseMap[responses[i].id := responses[i]];
    }
    assert responses[..|responses|] == responses;
    if |responseMap| != |ids| {
      return Err(WrongNumber(remote, |ids|, |responseMap|));
    }
    ghost var all := Collect(decode, remote, responseMap, ids);
    var result: seq<T> := [];
    assert ids[0..] == ids;
    AfterNothing([], all);
    for i := 0 to |ids|
      invariant var rest := Collect(decode, remote, responseMap, ids[i..]);
                all == After(result, rest)
    {
      var id := ids[i];
      assert ids[i..][0] == id && ids[i..][1..] == ids[i + 1..];
      if id !in responseMap {
        return Err(NoResponseTo(remote, id));
      }
      var single := ProcessSingle(decode, remote, responseMap[id]);
      responseMap := responseMap - {id};
      if single.Err? {
        return Err(single.error);
      }
      AfterAfter(result, single.value, Collect(decode, remote, responseMap, ids[i + 1..]));
      result := result + [single.value];
    }
    AfterNothing(result, all);
    return Ok(result);
  }

  /** Sends a batch; `transport` is what comes back if it is sent. */
  method SendBatch<T>(decode: Json -> Option<T>, ids: seq<Id>, transport: Transport)
    returns (r: Result<seq<T>, RpcError>)
    ensures r == if ids == [] then Ok([])
                 else if !AllUnique(ids) then Err(InvalidRequest)
                 else ProcessBatch(decode, transport, ids)
  {
    if ids == [] {
      return Ok([]);
    }
    if !AllUnique(ids) {
      return Err(InvalidRequest);
    }
    r := ProcessTransportBatchResult(decode, transport, ids);
  }

  // ---------------------------------------------------------------------------------------
  // Results come in the order of the requests
  // ---------------------------------------------------------------------------------------

  function IdsOf(responses: seq<Response>): (r: seq<Id>)
    ensures |r| == |responses| && forall i :: 0 <= i < |r| ==> r[i] == responses[i].id
  {
    seq(|responses|, i requires 0 <= i < |responses| => responses[i].id)
  }

  function SetOf<A>(xs: seq<A>): set<A> {
    set x | x in xs
  }

  lemma UniqueNext<A>(xs: seq<A>, x: A)
    ensures AllUnique(xs + [x]) <==> AllUnique(xs) && x !in xs
  {
    var all := xs + [x];
    assert all[|xs|] == x && forall i :: 0 <= i < |xs| ==> all[i] == xs[i];
  }

  lemma {:induction false} UniqueSize<A>(xs: seq<A>)
    ensures |SetOf(xs)| <= |xs|
    ensures |SetOf(xs)| == |xs| <==> AllUnique(xs)
  {
    if xs != [] {
      var n := |xs| - 1;
      UniqueSize(xs[..n]);
      UniqueNext(xs[..n], xs[n]);
      assert xs == xs[..n] + [xs[n]];
      assert SetOf(xs) == SetOf(xs[..n]) + {xs[n]};
    }
  }

  /** The last response with an id. */
  ghost predicate IsLast(responses: seq<Response>, k: int, id: Id) {
    0 <= k < |responses| && responses[k].id == id && forall j :: k < j < |responses| ==> responses[j].id != id
  }

  lemma {:induction false} ByIdsHas(responses: seq<Response>)
    ensures ByIds(responses).Keys == SetOf(IdsOf(responses))
  {
    if responses != [] {
      var n := |responses| - 1;
      ByIdsHas(responses[..n]);
      assert IdsOf(responses) == IdsOf(responses[..n]) + [responses[n].id];
      assert SetOf(IdsOf(responses)) == SetOf(IdsOf(responses[..n])) + {responses[n].id};
    }
  }

  lemma {:induction false} ByIdsAt(responses: seq<Response>, k: nat, id: Id)
    requires IsLast(responses, k, id)
    ensures id in ByIds(responses) && ByIds(responses)[id] == responses[k]
  {
    var n := |responses| - 1;
    if k < n {
      assert IsLast(responses[..n], k, id);
      ByIdsAt(responses[..n], k, id);
    }
  }

  /** The results are those of the responses to the ids. */
  ghost predicate AreResults<T>(decode: Json -> Option<T>, remote: Address, responses: map<Id, Response>, ids: seq<Id>,
                                results: seq<T>) {
    && |results| == |ids|
    && forall i :: 0 <= i < |ids| ==>
      && ids[i] in responses && responses[ids[i]].error == None
      && decode(responses[ids[i]].result) == Some(results[i])
  }

  /** An id has no response, a response with an error, or one whose result cannot be decoded. */
  function Failure<T>(decode: Json -> Option<T>, remote: Address, responses: map<Id, Response>, id: Id)
    : Option<RpcError>
  {
    if id !in responses then Some(NoResponseTo(remote, id))
    else if responses[id].error != None then Some(ResponseError(remote, responses[id].error.value))
    else if decode(responses[id].result) == None then Some(NotDecoded(remote, responses[id]))
    else None
  }

  /** The error is that of the first id that fails. */
  ghost predicate IsFirstFailure<T>(decode: Json -> Option<T>, remote: Address, responses: map<Id, Response>,
                                    ids: seq<Id>, error: RpcError) {
    exists i :: 0 <= i < |ids| && Failure(decode, remote, responses, ids[i]) == Some(error)
             && forall j :: 0 <= j < i ==> Failure(decode, remote, responses, ids[j]) == None
  }

  lemma {:induction false} CollectIs<T>(decode: Json -> Option<T>, remote: Address, responses: map<Id, Response>,
                                        ids: seq<Id>)
    requires AllUnique(ids)
    ensures match Collect(decode, remote, responses, ids)
            case Ok(results) => AreResults(decode, remote, responses, ids, results)
            case Err(error) => IsFirstFailure(decode, remote, responses, ids, error)
  {
    if ids != [] && Failure(decode, remote, responses, ids[0]) == None {
      var others, tail := responses - {ids[0]}, ids[1..];
      CollectIs(decode, remote, others, tail);
      forall i | 0 <= i < |tail|
        ensures Failure(decode, remote, others, tail[i]) == Failure(decode, remote, responses, ids[i + 1]) {
        assert tail[i] == ids[i + 1] != ids[0];
      }
      match Collect(decode, remote, others, tail)
      case Ok(results) =>
      case Err(error) =>
        var i :| 0 <= i < |tail| && Failure(decode, remote, others, tail[i]) == Some(error)
          && forall j :: 0 <= j < i ==> Failure(decode, remote, others, tail[j]) == None;
        forall j | 0 <= j < i + 1 ensures Failure(decode, remote, responses, ids[j]) == None {
          assert j > 0 ==> tail[j - 1] == ids[j];
        }
        assert Failure(decode, remote, responses, ids[i + 1]) == Some(error);
    }
  }

  /**
   A batch with unique ids succeeds exactly when the responses are to the requested ids and all of
   them have results.
   */
  lemma BatchSucceedsIff<T>(decode: Json -> Option<T>, remote: Address, responses: seq<Response>, ids: seq<Id>)
    requires AllUnique(ids)
    ensures ProcessBatch(decode, Batch(remote, responses), ids).Ok?
       <==> && SetOf(IdsOf(responses)) == SetOf(ids)
            && forall id :: id in ids ==> Failure(decode, remote, ByIds(responses), id) == None
  {
    var m := ByIds(responses);
    ByIdsHas(responses);
    UniqueSize(ids);
    CollectIs(decode, remote, m, ids);
    assert |m| == |m.Keys|;
    if ProcessBatch(decode, Batch(remote, responses), ids).Ok? {
      assert forall i :: 0 <= i < |ids| ==> ids[i] in m;
      assert SetOf(ids) <= m.Keys;
      SubsetOfSize(SetOf(ids), m.Keys);
    }
  }

  /** Which error a batch with unique ids gives otherwise. */
  lemma BatchErrorIs<T>(decode: Json -> Option<T>, transport: Transport, ids: seq<Id>)
    requires AllUnique(ids)
    ensures match transport
            case NoAnswer(reason) => ProcessBatch(decode, transport, ids) == Err(TransportError(reason))
            case Single(remote, _) => ProcessBatch(decode, transport, ids) == Err(ExpectedBatch(remote))
            case Batch(remote, responses) =>
              var r := ProcessBatch(decode, transport, ids);
              var found := |SetOf(IdsOf(responses))|;
              if found != |ids| then r == Err(WrongNumber(remote, |ids|, found))
              else r.Err? ==> IsFirstFailure(decode, remote, ByIds(responses), ids, r.error)
  {
    if transport.Batch? {
      ByIdsHas(transport.responses);
      CollectIs(decode, transport.remote, ByIds(transport.responses), ids);
      var m := ByIds(transport.responses);
      assert |m| == |m.Keys|;
    }
  }

  lemma SubsetOfSize<A>(xs: set<A>, ys: set<A>)
    requires xs <= ys && |xs| == |ys|
    ensures xs == ys
  {
    assert |ys - xs| == |ys| - |xs|;
    assert ys - xs == {};
  }

  /** Every result of a batch that succeeds is decoded from the last response with the id of its request. */
  lemma ResultsAreInOrder<T>(decode: Json -> Option<T>, remote: Address, responses: seq<Response>, ids: seq<Id>,
                             i: nat, k: nat)
    requires AllUnique(ids) && i < |ids| && IsLast(responses, k, ids[i])
    ensures var r := ProcessBatch(decode, Batch(remote, responses), ids);
            r.Ok? ==>
              |r.value| == |ids| && responses[k].error == None && decode(responses[k].result) == Some(r.value[i])
  {
    CollectIs(decode, remote, ByIds(responses), ids);
    ByIdsAt(responses, k, ids[i]);
  }

  // ---------------------------------------------------------------------------------------
  // The order of the responses does not matter
  // ---------------------------------------------------------------------------------------

  lemma ByIdsOfUnique(responses: seq<Response>, id: Id, r: Response)
    requires AllUnique(IdsOf(responses))
    ensures id in ByIds(responses) && ByIds(responses)[id] == r <==> r in responses && r.id == id
  {
    ByIdsHas(responses);
    var ids := IdsOf(responses);
    if r in responses && r.id == id {
      var k :| 0 <= k < |responses| && responses[k] == r;
      assert ids[k] == id;
      assert IsLast(responses, k, id);
      ByIdsAt(responses, k, id);
    } else if id in ByIds(responses) {
      assert id in ids;
      var k :| 0 <= k < |ids| && ids[k] == id;
      assert IsLast(responses, k, id);
      ByIdsAt(responses, k, id);
    }
  }

  /** Any order of responses with unique ids gives the same results, or the same error. */
  lemma ResponseOrderDoesNotMatter<T>(decode: Json -> Option<T>, remote: Address, xs: seq<Response>,
                                      ys: seq<Response>, ids: seq<Id>)
    requires multiset(xs) == multiset(ys) && AllUnique(IdsOf(xs))
    ensures ProcessBatch(decode, Batch(remote, xs), ids) == ProcessBatch(decode, Batch(remote, ys), ids)
  {
    PermutedIdsAreUnique(xs, ys);
    SameResponses(xs, ys);
    SameResponses(ys, xs);
    assert ByIds(xs) == ByIds(ys);
  }

  lemma SameResponses(xs: seq<Response>, ys: seq<Response>)
    requires multiset(xs) == multiset(ys) && AllUnique(IdsOf(xs)) && AllUnique(IdsOf(ys))
    ensures forall id :: id in ByIds(xs) ==> id in ByIds(ys) && ByIds(ys)[id] == ByIds(xs)[id]
  {
    forall id | id in ByIds(xs) ensures id in ByIds(ys) && ByIds(ys)[id] == ByIds(xs)[id] {
      var r := ByIds(xs)[id];
      ByIdsOfUnique(xs, id, r);
      ByIdsOfUnique(ys, id, r);
      assert r in multiset(xs);
    }
  }

  lemma PermutedIdsAreUnique(xs: seq<Response>, ys: seq<Response>)
    requires multiset(xs) == multiset(ys) && AllUnique(IdsOf(xs))
    ensures AllUnique(IdsOf(ys))
  {
    assert |xs| == |multiset(xs)| == |multiset(ys)| == |ys|;
    UniqueSize(IdsOf(xs));
    UniqueSize(IdsOf(ys));
    SameIds(xs, ys);
  }

  lemma SameIds(xs: seq<Response>, ys: seq<Response>)
    requires multiset(xs) == multiset(ys)
    ensures SetOf(IdsOf(xs)) == SetOf(IdsOf(ys))
  {
    IdsWithin(xs, ys);
    IdsWithin(ys, xs);
  }

  lemma IdsWithin(xs: seq<Response>, ys: seq<Response>)
    requires multiset(xs) == multiset(ys)
    ensures SetOf(IdsOf(xs)) <= SetOf(IdsOf(ys))
  {
    forall id | id in SetOf(IdsOf(xs)) ensures id in SetOf(IdsOf(ys)) {
      var k :| 0 <= k < |IdsOf(xs)| && IdsOf(xs)[k] == id;
      assert xs[k] in multiset(ys);
      var j :| 0 <= j < |ys| && ys[j] == xs[k];
      assert IdsOf(ys)[j] == id;
    }
  }

  // ---------------------------------------------------------------------------------------
  // The id of a batch
  // ---------------------------------------------------------------------------------------

  /** The greatest id of a batch of requests or responses, by which a response finds its request. */
  method BatchId(ids: seq<Id>) returns (r: Id)
    ensures IsBatchId(ids, r)
  {
    if ids == [] {
      return U64_MAX;
    }
    r := ids[0];
    for i := 1 to |ids|
      invariant r in ids && forall k :: 0 <= k < i ==> ids[k] <= r
    {
      r := if ids[i] >= r then ids[i] else r;
    }
  }

  ghost predicate IsBatchId(ids: seq<Id>, r: Id) {
    if ids == [] then r == U64_MAX else r in ids && forall k :: 0 <= k < |ids| ==> ids[k] <= r
  }

  /** The responses have the batch id of the requests whenever they are to the same ids. */
  lemma BatchIdsAgree(ids: seq<Id>, r: Id, responses: seq<Response>, s: Id)
    requires IsBatchId(ids, r) && IsBatchId(IdsOf(responses), s)
    requires SetOf(ids) == SetOf(IdsOf(responses))
    ensures r == s
  {
    var others := IdsOf(responses);
    assert forall k :: 0 <= k < |ids| ==> ids[k] in SetOf(others);
    assert forall k :: 0 <= k < |others| ==> others[k] in SetOf(ids);
    assert ids == [] <==> SetOf(ids) == {} by {
      assert ids != [] ==> ids[0] in SetOf(ids);
    }
    assert others == [] <==> SetOf(others) == {} by {
      assert others != [] ==> others[0] in SetOf(others);
    }
    assert ids != [] ==> r in SetOf(others) && s in SetOf(ids);
  }

  /** The response to a batch that succeeds can be matched to it by the batch ids. */
  lemma SuccessfulBatchIsMatched<T>(decode: Json -> Option<T>, remote: Address, responses: seq<Response>, ids: seq<Id>,
                                    r: Id, s: Id)
    requires AllUnique(ids) && ProcessBatch(decode, Batch(remote, responses), ids).Ok?
    requires IsBatchId(ids, r) && IsBatchId(IdsOf(responses), s)
    ensures r == s
  {
    BatchSucceedsIff(decode, remote, responses, ids);
    BatchIdsAgree(ids, r, responses, s);
  }
}
