/** The command functions of quicksnmp.py: each builds its request, hands it
    to the SNMP library (which answers with a response iterator, modelled by
    the ResponseSource it is given) and drains the iterator with `fetch`. */
module Commands {
  import opened Wrappers
  import opened Coercion
  import opened Builders
  import opened Rows
  import opened FetchLoop

  /** The arguments `get_bulk` hands to the library's bulk command besides
      the session objects: non-repeaters, max-repetitions and the units. */
  datatype BulkRequest = BulkRequest(nonRepeaters: int, maxRepetitions: int, units: seq<ObjectType>)

  /** How `get_bulk_auto` can fail: its count lookup or its bulk fetch raised,
      the count identifier is missing from the row (KeyError), or the value
      found there is not an int and `range` rejects it (TypeError). */
  datatype CommandError = FetchFailed(cause: FetchError) | KeyError(oid: string) | TypeError

  /** `get`: a read request for `oids`, then the single row of `fetch(handler, 1)`. */
  method Get(oids: seq<string>, handler: ResponseSource) returns (sent: seq<ObjectType>, r: Result<Row, FetchError>)
    requires handler.Valid()
    modifies handler
    ensures handler.Valid()
    ensures IsReadRequest(sent, oids)
    ensures var run := Drain(old(handler.Remaining()), 1, 0);
      && handler.pos == old(handler.pos) + run.consumed
      && (r.Success? <==> run.outcome.Success?)
      && (r.Success? ==> run.outcome.value == [r.value])
      && (r.Failure? ==> run.outcome == Failure(r.error))
  {
    sent := ConstructObjectTypes(oids);
    var rows := Fetch(handler, 1);
    if rows.Failure? {
      return sent, Failure(rows.error);
    }
    r := Success(rows.value[0]);
  }

  /** `set`: a write request for `pairs`, then the single row of
      `fetch(handler, 1)`. */
  method Set(pairs: seq<(string, SnmpValue)>, handler: ResponseSource) returns (sent: seq<ObjectType>, r: Result<Row, FetchError>)
    requires handler.Valid()
    modifies handler
    ensures handler.Valid()
    ensures IsWriteRequest(sent, pairs)
    ensures var run := Drain(old(handler.Remaining()), 1, 0);
      && handler.pos == old(handler.pos) + run.consumed
      && (r.Success? <==> run.outcome.Success?)
      && (r.Success? ==> run.outcome.value == [r.value])
      && (r.Failure? ==> run.outcome == Failure(r.error))
  {
    sent := ConstructValuePairs(pairs);
    var rows := Fetch(handler, 1);
    if rows.Failure? {
      return sent, Failure(rows.error);
    }
    r := Success(rows.value[0]);
  }

  /** `get_bulk`: a bulk request with `startFrom` non-repeaters and `count`
      repetitions, then all rows of `fetch(handler, count)`. */
  method GetBulk(oids: seq<string>, count: int, startFrom: int, handler: ResponseSource)
    returns (sent: BulkRequest, r: Result<seq<Row>, FetchError>)
    requires handler.Valid()
    modifies handler
    ensures handler.Valid()
    ensures sent.nonRepeaters == startFrom && sent.maxRepetitions == count && IsReadRequest(sent.units, oids)
    ensures var run := Drain(old(handler.Remaining()), RangeLength(count), 0);
      r == run.outcome && handler.pos == old(handler.pos) + run.consumed
    ensures r.Success? ==> |r.value| == RangeLength(count)
  {
    var units := ConstructObjectTypes(oids);
    sent := BulkRequest(startFrom, count, units);
    r := Fetch(handler, count);
  }

  /** `get_bulk_auto`: `get` on `countOid`, then `get_bulk` with the integer
      found under `countOid` in that row as the count. */
  method GetBulkAuto(oids: seq<string>, countOid: string, startFrom: int,
                     countHandler: ResponseSource, bulkHandler: ResponseSource)
    returns (bulk: Option<BulkRequest>, r: Result<seq<Row>, CommandError>)
    requires countHandler.Valid() && bulkHandler.Valid() && countHandler != bulkHandler
    modifies countHandler, bulkHandler
    ensures countHandler.Valid() && bulkHandler.Valid()
    ensures var first := Drain(old(countHandler.Remaining()), 1, 0);
      && countHandler.pos == old(countHandler.pos) + first.consumed
      && (first.outcome.Failure? ==> r == Failure(FetchFailed(first.outcome.error)))
      && (first.outcome.Success? && Lookup(first.outcome.value[0], countOid).None? ==>
            r == Failure(KeyError(countOid)))
      && (first.outcome.Success? && Lookup(first.outcome.value[0], countOid).Some?
          && !Lookup(first.outcome.value[0], countOid).value.NInt? ==>
            r == Failure(TypeError))
    ensures bulk.None? ==> bulkHandler.pos == old(bulkHandler.pos) && r.Failure?
    ensures var first := Drain(old(countHandler.Remaining()), 1, 0).outcome;
      bulk.Some? <==> first.Success? && Lookup(first.value[0], countOid).Some?
                      && Lookup(first.value[0], countOid).value.NInt?
    ensures bulk.Some? ==>
      var first := Drain(old(countHandler.Remaining()), 1, 0).outcome;
      var count := bulk.value.maxRepetitions;
      var run := Drain(old(bulkHandler.Remaining()), RangeLength(count), 0);
      && first.Success? && Lookup(first.value[0], countOid) == Some(NInt(count))
      && bulk.value.nonRepeaters == startFrom && IsReadRequest(bulk.value.units, oids)
      && bulkHandler.pos == old(bulkHandler.pos) + run.consumed
      && r == match run.outcome
              case Success(rows) => Success(rows)
              case Failure(e) => Failure(FetchFailed(e))
  {
    var _, row := Get([countOid], countHandler);
    if row.Failure? {
      return None, Failure(FetchFailed(row.error));
    }
    var found := Lookup(row.value, countOid);
    if found.None? {
      return None, Failure(KeyError(countOid));
    }
    if !found.value.NInt? {
      return None, Failure(TypeError);
    }
    var sent, rows := GetBulk(oids, found.value.value, startFrom, bulkHandler);
    bulk := Some(sent);
    r := match rows
         case Success(rs) => Success(rs)
         case Failure(e) => Failure(FetchFailed(e));
  }
}
