/** The request builders of quicksnmp.py: the object-type units handed to the
    SNMP library's command functions. */
module Builders {
  import opened Wrappers
  import opened Coercion

  /** One object-type unit: an identifier and, for a SET, the value to write. */
  datatype ObjectType = ObjectType(oid: string, value: Option<SnmpValue>)

  /** `units` is the read request for `oids`: one value-less unit per
      identifier, in the same order. */
  predicate IsReadRequest(units: seq<ObjectType>, oids: seq<string>) {
    && |units| == |oids|
    && forall i :: 0 <= i < |oids| ==> units[i] == ObjectType(oids[i], None)
  }

  /** `units` is the write request for `pairs` (a mapping in iteration order):
      one unit per entry carrying its key and value, in the same order. */
  predicate IsWriteRequest(units: seq<ObjectType>, pairs: seq<(string, SnmpValue)>) {
    && |units| == |pairs|
    && forall i :: 0 <= i < |pairs| ==> units[i] == ObjectType(pairs[i].0, Some(pairs[i].1))
  }

  /** construct_object_types: appends one unit per identifier. */
  method ConstructObjectTypes(oids: seq<string>) returns (units: seq<ObjectType>)
    ensures IsReadRequest(units, oids)
    ensures oids == [] ==> units == []
  {
    units := [];
    for i := 0 to |oids|
      invariant IsReadRequest(units, oids[..i])
    {
      units := units + [ObjectType(oids[i], None)];
    }
  }

  /** construct_value_pairs: appends one unit per mapping entry. */
  method ConstructValuePairs(pairs: seq<(string, SnmpValue)>) returns (units: seq<ObjectType>)
    ensures IsWriteRequest(units, pairs)
    ensures pairs == [] ==> units == []
  {
    units := [];
    for i := 0 to |pairs|
      invariant IsWriteRequest(units, pairs[..i])
    {
      units := units + [ObjectType(pairs[i].0, Some(pairs[i].1))];
    }
  }
}
