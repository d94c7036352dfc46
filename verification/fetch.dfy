/** The fetch loop `fetch` of quicksnmp.py: drains `count` responses from the
    SNMP library's single-use response iterator, retrying each item on a
    reported error at most RETRY_LIMIT - 1 times. */
module FetchLoop {
  import opened Wrappers
  import opened Coercion
  import opened Rows

  /** The number of failed responses one item may see before the call raises. */
  const RETRY_LIMIT: nat := 3

  /** One tuple yielded by the response iterator: error indication, error
      status, error index and the variable bindings. */
  datatype Response = Response(indication: bool, status: nat, index: nat, binds: seq<VarBind>)

  /** A response is a success when neither the indication nor the status is
      set; the error index is not looked at. */
  predicate IsSuccess(r: Response) {
    !r.indication && r.status == 0
  }

  /** How a call to `fetch` can fail: the retry budget of one item ran out
      (with the last error seen), a value could not be coerced, or the
      iterator ran dry (StopIteration). */
  datatype FetchError =
    | ProtocolError(indication: bool, status: nat, index: nat)
    | Uncastable(cause: CastError)
    | Exhausted

  /** What one call does: the rows or the error, and how many responses it
      pulled from the iterator. */
  datatype FetchRun = FetchRun(outcome: Result<seq<Row>, FetchError>, consumed: nat)

  /** The number of iterations of Python's `range(count)`. */
  function RangeLength(count: int): nat {
    if count < 0 then 0 else count
  }

  /** `run` after `rows` were already collected from `used` responses. */
  function Prepend(rows: seq<Row>, used: nat, run: FetchRun): FetchRun {
    FetchRun(
      match run.outcome
      case Success(rest) => Success(rows + rest)
      case Failure(e) => Failure(e),
      used + run.consumed)
  }

  lemma PrependPrepend(a: seq<Row>, d: nat, b: seq<Row>, e: nat, run: FetchRun)
    ensures Prepend(a, d, Prepend(b, e, run)) == Prepend(a + b, d + e, run)
  {
    if run.outcome.Success? {
      assert a + (b + run.outcome.value) == (a + b) + run.outcome.value;
    }
  }

  /** The behaviour of `fetch` on the responses `rs`, with `count` rows still
      to collect and `retries` failures already recorded for the current item,
      one response at a time. */
  function Drain(rs: seq<Response>, count: nat, retries: nat): (run: FetchRun)
    ensures run.consumed <= |rs|
    ensures run.outcome.Success? ==> |run.outcome.value| == count
    decreases |rs|
  {
    if count == 0 then FetchRun(Success([]), 0)
    else if |rs| == 0 then FetchRun(Failure(Exhausted), 0)
    else if IsSuccess(rs[0]) then
      match RowOf(rs[0].binds)
      case Failure(e) => FetchRun(Failure(Uncastable(e)), 1)
      case Success(row) => Prepend([row], 1, Drain(rs[1..], count - 1, 0))
    else if retries + 1 >= RETRY_LIMIT then
      FetchRun(Failure(ProtocolError(rs[0].indication, rs[0].status, rs[0].index)), 1)
    else Prepend([], 1, Drain(rs[1..], count, retries + 1))
  }

  // The steps of `fetch`, each stated on the invariant
  // Prepend(collected, pulled, Drain(rest, count, retries)) == total.

  lemma StepDone(rows: seq<Row>, d: nat, rs: seq<Response>, retries: nat, total: FetchRun)
    requires Prepend(rows, d, Drain(rs, 0, retries)) == total
    ensures total == FetchRun(Success(rows), d)
  {
    assert rows + [] == rows;
  }

  lemma StepExhausted(rows: seq<Row>, d: nat, rs: seq<Response>, count: nat, retries: nat, total: FetchRun)
    requires count > 0 && |rs| == 0
    requires Prepend(rows, d, Drain(rs, count, retries)) == total
    ensures total == FetchRun(Failure(Exhausted), d)
  {
  }

  lemma StepRow(rows: seq<Row>, d: nat, rs: seq<Response>, count: nat, retries: nat, row: Row, total: FetchRun)
    requires count > 0 && |rs| > 0 && IsSuccess(rs[0]) && RowOf(rs[0].binds) == Success(row)
    requires Prepend(rows, d, Drain(rs, count, retries)) == total
    ensures Prepend(rows + [row], d + 1, Drain(rs[1..], count - 1, 0)) == total
  {
    PrependPrepend(rows, d, [row], 1, Drain(rs[1..], count - 1, 0));
  }

  lemma StepUncastable(rows: seq<Row>, d: nat, rs: seq<Response>, count: nat, retries: nat, e: CastError, total: FetchRun)
    requires count > 0 && |rs| > 0 && IsSuccess(rs[0]) && RowOf(rs[0].binds) == Failure(e)
    requires Prepend(rows, d, Drain(rs, count, retries)) == total
    ensures total == FetchRun(Failure(Uncastable(e)), d + 1)
  {
  }

  lemma StepRetry(rows: seq<Row>, d: nat, rs: seq<Response>, count: nat, retries: nat, total: FetchRun)
    requires count > 0 && |rs| > 0 && !IsSuccess(rs[0]) && retries + 1 < RETRY_LIMIT
    requires Prepend(rows, d, Drain(rs, count, retries)) == total
    ensures Prepend(rows, d + 1, Drain(rs[1..], count, retries + 1)) == total
  {
    PrependPrepend(rows, d, [], 1, Drain(rs[1..], count, retries + 1));
    assert rows + [] == rows;
  }

  lemma StepGiveUp(rows: seq<Row>, d: nat, rs: seq<Response>, count: nat, retries: nat, total: FetchRun)
    requires count > 0 && |rs| > 0 && !IsSuccess(rs[0]) && retries + 1 >= RETRY_LIMIT
    requires Prepend(rows, d, Drain(rs, count, retries)) == total
    ensures total == FetchRun(Failure(ProtocolError(rs[0].indication, rs[0].status, rs[0].index)), d + 1)
  {
  }

  /** The response iterator handed over by the SNMP library: the responses it
      will yield, and how many it has yielded so far. */
  class ResponseSource {
    const responses: seq<Response>
    var pos: nat

    ghost predicate Valid()
      reads this
    {
      pos <= |responses|
    }

    /** The responses not yet pulled. */
    function Remaining(): seq<Response>
      reads this
      requires Valid()
    {
      responses[pos..]
    }

    constructor (responses: seq<Response>)
      ensures Valid() && this.responses == responses && pos == 0
    {
      this.responses := responses;
      pos := 0;
    }

    /** `next(handler)`: the next response, or None for StopIteration. */
    method Next() returns (r: Option<Response>)
      requires Valid()
      modifies this
      ensures Valid()
      ensures old(pos) < |responses| ==> r == Some(responses[old(pos)]) && pos == old(pos) + 1
      ensures old(pos) == |responses| ==> r == None && pos == old(pos)
    {
      if pos < |responses| {
        r := Some(responses[pos]);
        pos := pos + 1;
      } else {
        r := None;
      }
    }
  }

  /** The inner `while(1)` loop of `fetch`, for one item: pulls responses
      until one succeeds and becomes a row, and gives up on the RETRY_LIMIT-th
      failure. Its effect is that of Drain on the first of `count` items. */
  method PullItem(handler: ResponseSource, ghost count: nat) returns (r: Result<Row, FetchError>)
    requires handler.Valid() && count > 0
    modifies handler
    ensures handler.Valid() && old(handler.pos) <= handler.pos
    ensures r.Success? ==>
      Drain(old(handler.Remaining()), count, 0)
        == Prepend([r.value], handler.pos - old(handler.pos), Drain(handler.Remaining(), count - 1, 0))
    ensures r.Failure? ==>
      Drain(old(handler.Remaining()), count, 0) == FetchRun(Failure(r.error), handler.pos - old(handler.pos))
  {
    ghost var start := handler.pos;
    ghost var total := Drain(handler.Remaining(), count, 0);
    assert total.outcome.Success? ==> [] + total.outcome.value == total.outcome.value;
    var retryCounter := 0;
    while true
      invariant handler.Valid() && start <= handler.pos
      invariant retryCounter < RETRY_LIMIT
      invariant Prepend([], handler.pos - start, Drain(handler.Remaining(), count, retryCounter)) == total
      decreases |handler.responses| - handler.pos
    {
      ghost var rest := handler.Remaining();
      ghost var pulled := handler.pos - start;
      var next := handler.Next();
      if next.None? {
        StepExhausted([], pulled, rest, count, retryCounter, total);
        return Failure(Exhausted);
      }
      var response := next.value;
      assert rest[0] == response && rest[1..] == handler.Remaining();
      if !response.indication && response.status == 0 {
        var items := CollectRow(response.binds);
        if items.Failure? {
          StepUncastable([], pulled, rest, count, retryCounter, items.error, total);
          return Failure(Uncastable(items.error));
        }
        StepRow([], pulled, rest, count, retryCounter, items.value, total);
        assert [] + [items.value] == [items.value];
        return Success(items.value);
      } else {
        if retryCounter + 1 >= RETRY_LIMIT {
          StepGiveUp([], pulled, rest, count, retryCounter, total);
        } else {
          StepRetry([], pulled, rest, count, retryCounter, total);
        }
        retryCounter := retryCounter + 1;
        if retryCounter >= RETRY_LIMIT {
          return Failure(ProtocolError(response.indication, response.status, response.index));
        }
      }
    }
  }

  /** `fetch(handler, count)`: for each of the `count` items, pulls responses
      until one succeeds, and raises on the RETRY_LIMIT-th failure of the same
      item; each success becomes one row. */
  method Fetch(handler: ResponseSource, count: int) returns (r: Result<seq<Row>, FetchError>)
    requires handler.Valid()
    modifies handler
    ensures handler.Valid()
    ensures r == Drain(old(handler.Remaining()), RangeLength(count), 0).outcome
    ensures handler.pos == old(handler.pos) + Drain(old(handler.Remaining()), RangeLength(count), 0).consumed
    ensures count <= 0 ==> r == Success([]) && handler.pos == old(handler.pos)
    ensures r.Success? ==> |r.value| == RangeLength(count)
  {
    ghost var start := handler.pos;
    ghost var total := Drain(handler.Remaining(), RangeLength(count), 0);
    var result: seq<Row> := [];
    assert total.outcome.Success? ==> [] + total.outcome.value == total.outcome.value;
    for i := 0 to RangeLength(count)
      invariant handler.Valid() && start <= handler.pos
      invariant Prepend(result, handler.pos - start, Drain(handler.Remaining(), RangeLength(count) - i, 0)) == total
    {
      ghost var pulled := handler.pos - start;
      ghost var rest := Drain(handler.Remaining(), RangeLength(count) - i, 0);
      var item := PullItem(handler, RangeLength(count) - i);
      if item.Failure? {
        return Failure(item.error);
      }
      PrependPrepend(result, pulled, [item.value], handler.pos - start - pulled,
                     Drain(handler.Remaining(), RangeLength(count) - i - 1, 0));
      result := result + [item.value];
    }
    StepDone(result, handler.pos - start, handler.Remaining(), 0, total);
    return Success(result);
  }
}
