/** The type coercion `cast` of quicksnmp.py: a value handed over by the SNMP
    library, tagged with its Python type, becomes a native str, float or int. */
module Coercion {
  import opened Wrappers

  /** A variable-binding value as the SNMP library returns it: one constructor
      per Python type that `cast` distinguishes, plus every other type. */
  datatype SnmpValue =
    | OctetString(text: string)     // rfc1902.OctetString
    | Str(text: string)             // Python str
    | TimeTicks(ticks: nat)         // rfc1902.TimeTicks, hundredths of a second
    | Float(number: real)           // Python float
    | Integer(value: int)           // rfc1902.Integer
    | Integer32(value: int)         // rfc1902.Integer32
    | Unsigned32(value: int)        // rfc1902.Unsigned32
    | Gauge32(value: int)           // rfc1902.Gauge32
    | Counter32(value: int)         // rfc1902.Counter32
    | Int(value: int)               // Python int
    | Other(typeName: string)       // any other type, named as `type(value)` prints it

  /** The three native kinds a coerced value can have. */
  datatype Native = NStr(text: string) | NFloat(number: real) | NInt(value: int)

  /** The exception raised for a type `cast` does not handle. */
  datatype CastError = UnsupportedType(typeName: string)

  /** The types `cast` turns into a string. */
  predicate IsStringType(v: SnmpValue) {
    v.OctetString? || v.Str?
  }

  /** The types `cast` turns into a float. */
  predicate IsFloatType(v: SnmpValue) {
    v.TimeTicks? || v.Float?
  }

  /** The integer family `cast` turns into an int. */
  predicate IsIntType(v: SnmpValue) {
    v.Integer? || v.Integer32? || v.Unsigned32? || v.Gauge32? || v.Counter32? || v.Int?
  }

  /** Coerces one value: each group of types goes to its one native kind, and
      every type outside the three groups fails naming that type. */
  function Cast(v: SnmpValue): (r: Result<Native, CastError>)
    ensures r.Failure? <==> !(IsStringType(v) || IsFloatType(v) || IsIntType(v))
    ensures v.Other? ==> r == Failure(UnsupportedType(v.typeName))
    ensures IsStringType(v) <==> r.Success? && r.value.NStr?
    ensures IsFloatType(v) <==> r.Success? && r.value.NFloat?
    ensures IsIntType(v) <==> r.Success? && r.value.NInt?
  {
    match v
    case OctetString(t) => Success(NStr(t))
    case Str(t) => Success(NStr(t))
    case TimeTicks(t) => Success(NFloat(t as real))
    case Float(x) => Success(NFloat(x))
    case Integer(n) => Success(NInt(n))
    case Integer32(n) => Success(NInt(n))
    case Unsigned32(n) => Success(NInt(n))
    case Gauge32(n) => Success(NInt(n))
    case Counter32(n) => Success(NInt(n))
    case Int(n) => Success(NInt(n))
    case Other(name) => Failure(UnsupportedType(name))
  }

  /** A native Python value handed to `cast` directly. */
  function Embed(n: Native): (v: SnmpValue)
    ensures !v.Other?
  {
    match n
    case NStr(t) => Str(t)
    case NFloat(x) => Float(x)
    case NInt(i) => Int(i)
  }

  /** Native str, float and int pass through `cast` unchanged. */
  lemma CastNativeIsIdentity(n: Native)
    ensures Cast(Embed(n)) == Success(n)
  {
  }

  /** Casting is idempotent: a coerced value, handed back to `cast`, comes out
      as itself. */
  lemma CastIdempotent(v: SnmpValue)
    requires Cast(v).Success?
    ensures Cast(Embed(Cast(v).value)) == Cast(v)
  {
  }

  /** Each library type carries the same payload as its native equivalent:
      the text of a string type, the tick count as a number, the integer. */
  lemma CastMatchesNativeEquivalent(v: SnmpValue)
    requires !v.Other?
    ensures IsStringType(v) ==> Cast(v) == Cast(Str(v.text))
    ensures v.TimeTicks? ==> Cast(v) == Cast(Float(v.ticks as real))
    ensures IsIntType(v) ==> Cast(v) == Cast(Int(v.value))
  {
  }
}
