/** What `fetch` promises, stated on its specification Drain: how many
    responses it consumes, which sequences of responses lead to a result,
    and how the retry budget behaves from one item to the next. */
module FetchProperties {
  import opened Wrappers
  import opened Coercion
  import opened Rows
  import opened FetchLoop

  /** The number of successful responses in `s`. */
  function Successes(s: seq<Response>): nat {
    if |s| == 0 then 0 else (if IsSuccess(s[0]) then 1 else 0) + Successes(s[1..])
  }

  /** The number of failed responses before the first success. */
  function LeadingFailures(s: seq<Response>): nat {
    if |s| == 0 || IsSuccess(s[0]) then 0 else 1 + LeadingFailures(s[1..])
  }

  /** Every three consecutive responses in `s` include a success. */
  predicate NoThreeFailures(s: seq<Response>) {
    |s| < 3 || ((IsSuccess(s[0]) || IsSuccess(s[1]) || IsSuccess(s[2])) && NoThreeFailures(s[1..]))
  }

  /** The rows of the successful responses of `s`, in order; the first value
      that cannot be coerced fails the whole list. */
  function SuccessRows(s: seq<Response>): Result<seq<Row>, CastError> {
    if |s| == 0 then Success([])
    else if !IsSuccess(s[0]) then SuccessRows(s[1..])
    else
      match RowOf(s[0].binds)
      case Failure(e) => Failure(e)
      case Success(row) =>
        match SuccessRows(s[1..])
        case Failure(e) => Failure(e)
        case Success(rows) => Success([row] + rows)
  }

  /** `s`, the responses consumed by a call with `retries` failures already
      recorded, completes `count` items with `rows`. */
  ghost predicate Completes(s: seq<Response>, count: nat, retries: nat, rows: seq<Row>) {
    && Successes(s) == count
    && (|s| > 0 ==> IsSuccess(s[|s| - 1]))
    && NoThreeFailures(s)
    && LeadingFailures(s) + retries < RETRY_LIMIT
    && SuccessRows(s) == Success(rows)
  }

  lemma {:induction false} LeadingFailuresFacts(s: seq<Response>)
    ensures LeadingFailures(s) <= |s|
    ensures LeadingFailures(s) < |s| ==> IsSuccess(s[LeadingFailures(s)])
    ensures LeadingFailures(s) == |s| ==> Successes(s) == 0
  {
    if |s| > 0 && !IsSuccess(s[0]) {
      LeadingFailuresFacts(s[1..]);
    }
  }

  lemma {:induction false} NoSuccesses(s: seq<Response>)
    requires |s| > 0 && IsSuccess(s[|s| - 1])
    ensures Successes(s) > 0
  {
    if !IsSuccess(s[0]) {
      NoSuccesses(s[1..]);
    }
  }

  /** A list of responses ending in a success with no three failures in a
      row starts with at most RETRY_LIMIT - 1 failures. */
  lemma LeadingFailuresBounded(s: seq<Response>)
    requires NoThreeFailures(s) && (|s| > 0 ==> IsSuccess(s[|s| - 1]))
    ensures LeadingFailures(s) < RETRY_LIMIT
  {
    if |s| > 0 && !IsSuccess(s[0]) {
      assert |s| >= 2;
      if !IsSuccess(s[1]) {
        assert |s| >= 3 && IsSuccess(s[2]);
        assert s[1..][1..][0] == s[2];
      }
      assert s[1..][0] == s[1];
    }
  }

  /** A successful call consumes between one and RETRY_LIMIT responses per
      item (the failures already recorded for the first item included). */
  lemma {:induction false} DrainBounds(rs: seq<Response>, count: nat, retries: nat)
    requires retries < RETRY_LIMIT && Drain(rs, count, retries).outcome.Success?
    ensures count <= Drain(rs, count, retries).consumed
    ensures count > 0 ==> Drain(rs, count, retries).consumed + retries <= RETRY_LIMIT * count
    decreases |rs|
  {
    if count > 0 {
      if IsSuccess(rs[0]) {
        DrainBounds(rs[1..], count - 1, 0);
      } else {
        DrainBounds(rs[1..], count, retries + 1);
      }
    }
  }

  lemma {:induction false} DrainSucceedsSound(rs: seq<Response>, count: nat, retries: nat, rows: seq<Row>, n: nat)
    requires retries < RETRY_LIMIT && Drain(rs, count, retries) == FetchRun(Success(rows), n)
    ensures n <= |rs| && Completes(rs[..n], count, retries, rows)
    decreases |rs|
  {
    var s := rs[..n];
    if count == 0 {
      assert s == [];
    } else {
      var t := rs[1..];
      assert s[1..] == t[..n - 1];
      if IsSuccess(rs[0]) {
        var sub := Drain(t, count - 1, 0);
        DrainSucceedsSound(t, count - 1, 0, sub.outcome.value, n - 1);
      } else {
        var sub := Drain(t, count, retries + 1);
        assert sub.outcome.Success? && [] + sub.outcome.value == sub.outcome.value;
        DrainSucceedsSound(t, count, retries + 1, rows, n - 1);
        LeadingFailuresFacts(t[..n - 1]);
        assert s[1..][0] == t[0];
      }
    }
  }

  lemma {:induction false} DrainSucceedsComplete(rs: seq<Response>, count: nat, retries: nat, rows: seq<Row>, n: nat)
    requires retries < RETRY_LIMIT && n <= |rs| && Completes(rs[..n], count, retries, rows)
    ensures Drain(rs, count, retries) == FetchRun(Success(rows), n)
    decreases |rs|
  {
    var s := rs[..n];
    if n == 0 {
      assert s == [];
    } else {
      NoSuccesses(s);
      var t := rs[1..];
      assert s[1..] == t[..n - 1];
      if IsSuccess(rs[0]) {
        var row := RowOf(rs[0].binds).value;
        var rest := SuccessRows(s[1..]).value;
        LeadingFailuresBounded(t[..n - 1]);
        DrainSucceedsComplete(t, count - 1, 0, rest, n - 1);
        assert rows == [row] + rest;
      } else {
        DrainSucceedsComplete(t, count, retries + 1, rows, n - 1);
        assert [] + rows == rows;
      }
    }
  }

  /** `fetch` returns `rows` after consuming `n` responses exactly when those
      `n` responses hold `count` successes, end with a success, never hold
      three failures in a row, and their successes give `rows` in order. */
  lemma DrainSucceedsIff(rs: seq<Response>, count: nat, rows: seq<Row>, n: nat)
    ensures Drain(rs, count, 0) == FetchRun(Success(rows), n) <==>
      && n <= |rs|
      && Successes(rs[..n]) == count
      && (n > 0 ==> IsSuccess(rs[n - 1]))
      && NoThreeFailures(rs[..n])
      && SuccessRows(rs[..n]) == Success(rows)
  {
    if Drain(rs, count, 0) == FetchRun(Success(rows), n) {
      DrainSucceedsSound(rs, count, 0, rows, n);
    } else if n <= |rs| && Successes(rs[..n]) == count && (n > 0 ==> IsSuccess(rs[n - 1]))
      && NoThreeFailures(rs[..n]) && SuccessRows(rs[..n]) == Success(rows)
    {
      LeadingFailuresBounded(rs[..n]);
      DrainSucceedsComplete(rs, count, 0, rows, n);
    }
  }

  /** One item: fewer than RETRY_LIMIT failures (those already recorded
      included) followed by a success produce that success's row, and the
      next item starts with a fresh retry budget; a value that cannot be
      coerced aborts the call instead, and is not retried. */
  lemma {:induction false} DrainFirstItem(fs: seq<Response>, s: Response, rest: seq<Response>, count: nat, retries: nat)
    requires |fs| + retries < RETRY_LIMIT
    requires forall i :: 0 <= i < |fs| ==> !IsSuccess(fs[i])
    requires IsSuccess(s)
    ensures Drain(fs + [s] + rest, count + 1, retries) ==
      match RowOf(s.binds)
      case Success(row) => Prepend([row], |fs| + 1, Drain(rest, count, 0))
      case Failure(e) => FetchRun(Failure(Uncastable(e)), |fs| + 1)
  {
    var rs := fs + [s] + rest;
    if |fs| == 0 {
      assert rs[0] == s && rs[1..] == rest;
    } else {
      assert rs[0] == fs[0] && rs[1..] == fs[1..] + [s] + rest;
      DrainFirstItem(fs[1..], s, rest, count, retries + 1);
      var sub := Drain(rs[1..], count + 1, retries + 1);
      if sub.outcome.Success? {
        assert [] + sub.outcome.value == sub.outcome.value;
      }
    }
  }

  /** The failure that exhausts an item's retry budget raises a protocol
      error carrying that response's indication, status and index; nothing
      after it is consumed, so no later item is processed. */
  lemma {:induction false} DrainGivesUp(fs: seq<Response>, rest: seq<Response>, count: nat, retries: nat)
    requires |fs| > 0 && |fs| + retries == RETRY_LIMIT
    requires forall i :: 0 <= i < |fs| ==> !IsSuccess(fs[i])
    ensures Drain(fs + rest, count + 1, retries) ==
      var last := fs[|fs| - 1];
      FetchRun(Failure(ProtocolError(last.indication, last.status, last.index)), |fs|)
  {
    var rs := fs + rest;
    assert rs[0] == fs[0] && rs[1..] == fs[1..] + rest;
    if |fs| > 1 {
      DrainGivesUp(fs[1..], rest, count, retries + 1);
    }
  }

  /** Items are independent: once a prefix `a` of the responses completes
      `c1` items, the remaining `c2` items are drained from what follows with
      a fresh retry budget, and the rows and the consumption add up. */
  lemma {:induction false} DrainSequential(a: seq<Response>, b: seq<Response>, c1: nat, c2: nat, retries: nat, rows: seq<Row>)
    requires Drain(a, c1, retries) == FetchRun(Success(rows), |a|)
    requires c1 > 0 || retries == 0
    ensures Drain(a + b, c1 + c2, retries) == Prepend(rows, |a|, Drain(b, c2, 0))
    decreases |a|
  {
    var whole := Drain(b, c2, 0);
    if c1 == 0 {
      assert a + b == b;
      if whole.outcome.Success? {
        assert [] + whole.outcome.value == whole.outcome.value;
      }
    } else {
      assert (a + b)[0] == a[0] && (a + b)[1..] == a[1..] + b;
      if IsSuccess(a[0]) {
        var row := RowOf(a[0].binds).value;
        var sub := Drain(a[1..], c1 - 1, 0);
        DrainSequential(a[1..], b, c1 - 1, c2, 0, sub.outcome.value);
        PrependPrepend([row], 1, sub.outcome.value, |a| - 1, whole);
      } else {
        var sub := Drain(a[1..], c1, retries + 1);
        assert sub.outcome.Success? && [] + sub.outcome.value == sub.outcome.value;
        DrainSequential(a[1..], b, c1, c2, retries + 1, rows);
        PrependPrepend([], 1, rows, |a| - 1, whole);
        assert [] + rows == rows;
      }
    }
  }

  /** `fetch` never looks past the responses it consumes: whatever would
      follow them, the call behaves the same (running dry excepted). */
  lemma {:induction false} DrainReadsNoFurther(rs: seq<Response>, count: nat, retries: nat, more: seq<Response>)
    requires Drain(rs, count, retries).outcome != Failure(Exhausted)
    ensures Drain(rs[..Drain(rs, count, retries).consumed] + more, count, retries) == Drain(rs, count, retries)
    decreases |rs|
  {
    var n := Drain(rs, count, retries).consumed;
    var s := rs[..n] + more;
    if count > 0 {
      assert s[0] == rs[0];
      if IsSuccess(rs[0]) {
        if RowOf(rs[0].binds).Success? {
          var sub := Drain(rs[1..], count - 1, 0);
          assert s[1..] == rs[1..][..sub.consumed] + more;
          DrainReadsNoFurther(rs[1..], count - 1, 0, more);
        }
      } else if retries + 1 < RETRY_LIMIT {
        var sub := Drain(rs[1..], count, retries + 1);
        assert s[1..] == rs[1..][..sub.consumed] + more;
        DrainReadsNoFurther(rs[1..], count, retries + 1, more);
      }
    }
  }

  /** The two lists of responses differ at most in their error indexes. */
  predicate SameButIndex(rs: seq<Response>, rs': seq<Response>) {
    && |rs| == |rs'|
    && forall i :: 0 <= i < |rs| ==>
         rs'[i].indication == rs[i].indication && rs'[i].status == rs[i].status && rs'[i].binds == rs[i].binds
  }

  /** The error index never decides anything: responses that differ only
      there are consumed alike, and succeed alike with the same rows. */
  lemma {:induction false} DrainIgnoresErrorIndex(rs: seq<Response>, rs': seq<Response>, count: nat, retries: nat)
    requires SameButIndex(rs, rs')
    ensures Drain(rs', count, retries).consumed == Drain(rs, count, retries).consumed
    ensures Drain(rs', count, retries).outcome.Success? <==> Drain(rs, count, retries).outcome.Success?
    ensures Drain(rs, count, retries).outcome.Success? ==>
      Drain(rs', count, retries).outcome == Drain(rs, count, retries).outcome
    decreases |rs|
  {
    if count > 0 && |rs| > 0 {
      assert SameButIndex(rs[1..], rs'[1..]);
      assert IsSuccess(rs[0]) <==> IsSuccess(rs'[0]);
      if IsSuccess(rs[0]) {
        DrainIgnoresErrorIndex(rs[1..], rs'[1..], count - 1, 0);
      } else {
        DrainIgnoresErrorIndex(rs[1..], rs'[1..], count, retries + 1);
      }
    }
  }
}
