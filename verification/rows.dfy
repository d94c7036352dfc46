/** One result row of quicksnmp.py's `fetch`: the dictionary built from a
    response's variable bindings, mapping each identifier string to its
    coerced value. */
module Rows {
  import opened Wrappers
  import opened Coercion

  /** One variable binding of a response: the identifier (already rendered
      with `str`) and the value the library returned for it. */
  datatype VarBind = VarBind(oid: string, value: SnmpValue)

  /** A Python dict from identifier to native value, as its entries in
      insertion order. */
  type Row = seq<(string, Native)>

  /** The keys of a row, in insertion order. */
  function Keys(row: Row): (ks: seq<string>)
    ensures |ks| == |row|
  {
    if |row| == 0 then [] else [row[0].0] + Keys(row[1..])
  }

  predicate Distinct(ks: seq<string>) {
    forall i, j :: 0 <= i < j < |ks| ==> ks[i] != ks[j]
  }

  /** `row[k]`, or None when `k` is not a key. */
  function Lookup(row: Row, k: string): Option<Native> {
    if |row| == 0 then None
    else if row[0].0 == k then Some(row[0].1)
    else Lookup(row[1..], k)
  }

  /** Dictionary assignment `row[k] = v`: an existing key keeps its place and
      takes the new value, a new key is appended; no other key changes. */
  function Put(row: Row, k: string, v: Native): (r: Row)
    ensures Lookup(r, k) == Some(v)
    ensures forall k' :: k' != k ==> Lookup(r, k') == Lookup(row, k')
    ensures k in Keys(row) ==> Keys(r) == Keys(row)
    ensures k !in Keys(row) ==> Keys(r) == Keys(row) + [k]
    ensures Distinct(Keys(row)) ==> Distinct(Keys(r))
  {
    if |row| == 0 then [(k, v)]
    else if row[0].0 == k then [(k, v)] + row[1..]
    else [row[0]] + Put(row[1..], k, v)
  }

  /** A key is present exactly when it is looked up successfully. */
  lemma {:induction false} LookupFindsKeys(row: Row, k: string)
    ensures Lookup(row, k).Some? <==> k in Keys(row)
  {
    if |row| > 0 {
      LookupFindsKeys(row[1..], k);
    }
  }

  /** The identifiers of a list of bindings, in order. */
  function Oids(binds: seq<VarBind>): (ks: seq<string>)
    ensures |ks| == |binds|
    ensures forall i :: 0 <= i < |binds| ==> ks[i] == binds[i].oid
  {
    seq(|binds|, i requires 0 <= i < |binds| => binds[i].oid)
  }

  /** The elements of `ks` at the positions where they occur for the first
      time, in order. */
  function FirstOccurrences(ks: seq<string>): seq<string> {
    if |ks| == 0 then []
    else
      var last := ks[|ks| - 1];
      FirstOccurrences(ks[..|ks| - 1]) + (if last in ks[..|ks| - 1] then [] else [last])
  }

  lemma {:induction false} FirstOccurrencesMembers(ks: seq<string>)
    ensures forall k :: k in FirstOccurrences(ks) <==> k in ks
  {
    if |ks| > 0 {
      FirstOccurrencesMembers(ks[..|ks| - 1]);
      assert ks == ks[..|ks| - 1] + [ks[|ks| - 1]];
    }
  }

  /** The value of the last binding whose identifier is `k`, if any. */
  function LastBinding(binds: seq<VarBind>, k: string): Option<SnmpValue> {
    if |binds| == 0 then None
    else if binds[|binds| - 1].oid == k then Some(binds[|binds| - 1].value)
    else LastBinding(binds[..|binds| - 1], k)
  }

  /** The row `fetch` builds from a successful response: the bindings are
      assigned in order, each coerced first; the first binding whose value
      cannot be coerced aborts the row with that error. */
  function RowOf(binds: seq<VarBind>): Result<Row, CastError> {
    if |binds| == 0 then Success([])
    else
      var last := binds[|binds| - 1];
      match RowOf(binds[..|binds| - 1])
      case Failure(e) => Failure(e)
      case Success(row) =>
        match Cast(last.value)
        case Failure(e) => Failure(e)
        case Success(n) => Success(Put(row, last.oid, n))
  }

  /** The row fails exactly when some binding's value cannot be coerced, and
      then with the error of the first such binding. */
  lemma {:induction false} RowOfFailsAtFirstUncastable(binds: seq<VarBind>)
    ensures RowOf(binds).Failure? <==> exists i :: 0 <= i < |binds| && Cast(binds[i].value).Failure?
    ensures RowOf(binds).Failure? ==>
      exists i :: 0 <= i < |binds| && Cast(binds[i].value) == Failure(RowOf(binds).error)
        && forall j :: 0 <= j < i ==> Cast(binds[j].value).Success?
  {
    if |binds| > 0 {
      var init := binds[..|binds| - 1];
      RowOfFailsAtFirstUncastable(init);
      if RowOf(init).Failure? {
        var i :| 0 <= i < |init| && Cast(init[i].value) == Failure(RowOf(init).error)
          && forall j :: 0 <= j < i ==> Cast(init[j].value).Success?;
        assert binds[i] == init[i];
      } else if Cast(binds[|binds| - 1].value).Success? {
        forall i | 0 <= i < |binds| ensures Cast(binds[i].value).Success? {
          if i < |init| {
            assert binds[i] == init[i];
          }
        }
      } else {
        forall j | 0 <= j < |binds| - 1 ensures Cast(binds[j].value).Success? {
          assert binds[j] == init[j];
        }
      }
    }
  }

  /** A successful row holds exactly the identifiers of the bindings, each
      once and in order of first appearance, and each mapped to the coerced
      value of the last binding with that identifier. */
  lemma {:induction false} RowOfContents(binds: seq<VarBind>)
    requires RowOf(binds).Success?
    ensures Distinct(Keys(RowOf(binds).value))
    ensures Keys(RowOf(binds).value) == FirstOccurrences(Oids(binds))
    ensures forall k :: k in Keys(RowOf(binds).value) <==> k in Oids(binds)
    ensures forall k :: Lookup(RowOf(binds).value, k).Some? <==> LastBinding(binds, k).Some?
    ensures forall k :: LastBinding(binds, k).Some? ==>
      Cast(LastBinding(binds, k).value) == Success(Lookup(RowOf(binds).value, k).value)
  {
    var row := RowOf(binds).value;
    if |binds| == 0 {
      assert Oids(binds) == [];
    } else {
      var init := binds[..|binds| - 1];
      var last := binds[|binds| - 1];
      RowOfContents(init);
      var prev := RowOf(init).value;
      assert row == Put(prev, last.oid, Cast(last.value).value);
      assert Oids(init) == Oids(binds)[..|binds| - 1];
      FirstOccurrencesMembers(Oids(init));
      FirstOccurrencesMembers(Oids(binds));
      forall k ensures Lookup(row, k).Some? <==> LastBinding(binds, k).Some? {
        LookupFindsKeys(prev, k);
      }
    }
  }

  /** A failed row stays failed when more bindings follow. */
  lemma {:induction false} RowOfFailureSticks(binds: seq<VarBind>, j: nat)
    requires j <= |binds| && RowOf(binds[..j]).Failure?
    ensures RowOf(binds) == RowOf(binds[..j])
    decreases |binds|
  {
    if j < |binds| {
      var init := binds[..|binds| - 1];
      assert init[..j] == binds[..j];
      RowOfFailureSticks(init, j);
    } else {
      assert binds[..j] == binds;
    }
  }

  /** The inner loop of `fetch`: fills a fresh dict from the bindings in
      order, raising on the first value `cast` rejects. */
  method CollectRow(binds: seq<VarBind>) returns (r: Result<Row, CastError>)
    ensures r == RowOf(binds)
  {
    var items: Row := [];
    for j := 0 to |binds|
      invariant RowOf(binds[..j]) == Success(items)
    {
      var c := Cast(binds[j].value);
      assert binds[..j + 1][..j] == binds[..j];
      if c.Failure? {
        RowOfFailureSticks(binds, j + 1);
        return Failure(c.error);
      }
      items := Put(items, binds[j].oid, c.value);
    }
    assert binds[..|binds|] == binds;
    return Success(items);
  }
}
