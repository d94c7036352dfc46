# quicksnmp, modelled in Dafny

quicksnmp is a thin wrapper over the pysnmp library. It exposes SNMP GET, SET
and GETBULK as plain functions. pysnmp does all the protocol work. The wrapper's
own logic is small:

- `cast` coerces a value returned by the library into a native `str`, `float`
  or `int`, and raises for any other type.
- `construct_object_types` and `construct_value_pairs` build the list of
  object-type units that the library's commands take.
- `fetch` drains the library's single-use response iterator until it has
  `count` rows. Each item may fail twice and is retried. The third failure of
  the same item raises. Each success becomes a dict from identifier to coerced
  value.
- `get`, `set`, `get_bulk` and `get_bulk_auto` compose the three pieces above.

The model has one module per component:

- `Coercion` (coercion.dfy): the tagged library values, the three native kinds,
  and `Cast`.
- `Builders` (builders.dfy): the two builders, as loop methods.
- `Rows` (rows.dfy): a result row. It is a Python dict kept as its entries in
  insertion order. `Put` is dict assignment. `RowOf` is the row of one
  response, and `CollectRow` is the loop that fills it.
- `FetchLoop` (fetch.dfy): the responses, `Drain` (the specification of
  `fetch`, one response at a time), the iterator as a `ResponseSource` cursor
  object, and `Fetch`. `Fetch` is the source's nested loops: `for` over items,
  and the inner `while(1)` (`PullItem`).
- `FetchProperties` (fetch_properties.dfy): what `fetch` promises, stated as
  lemmas about `Drain`.
- `Commands` (commands.dfy): the four command functions.

The iterator running dry (`StopIteration` out of `next`) is modelled as the
error `Exhausted`. It propagates like any other exception and nothing recovers
from it.

A response counts as a success when neither the error indication nor the error
status is set. The code never uses the error index to decide success; it only
formats it into its messages. The model follows the code (quicksnmp.py:80), and
`DrainIgnoresErrorIndex` states this.

## Model

| member | source | states |
|---|---|---|
| `Coercion.Cast` | quicksnmp.py:61-69 | OctetString/str give a string, TimeTicks/float give a float, and the six integer types give an int. Exactly the other types fail, with an error naming the type. |
| `Coercion.CastNativeIsIdentity` | quicksnmp.py:61-69 | A native str, float or int passes through `cast` unchanged. |
| `Coercion.CastIdempotent` | quicksnmp.py:61-69 | Casting an already-coerced value again gives the same result. |
| `Coercion.CastMatchesNativeEquivalent` | quicksnmp.py:61-69 | Each library type casts like its native equivalent: the text for string types, the tick count as a number for TimeTicks, the integer for the integer family. |
| `Builders.ConstructObjectTypes` | quicksnmp.py:6-10 | One value-less unit per identifier, with the same length and order. Empty input gives empty output. |
| `Builders.ConstructValuePairs` | quicksnmp.py:13-17 | One unit per mapping entry, carrying its key and value, in iteration order. Empty input gives empty output. |
| `Rows.Put` | quicksnmp.py:83 | Dict assignment. The key then maps to the new value and no other key changes. An existing key keeps its place; a new key is appended. Keys stay distinct. |
| `Rows.RowOfFailsAtFirstUncastable` | quicksnmp.py:81-83 | A row fails exactly when some binding's value cannot be coerced. It then fails with the error of the first such binding. |
| `Rows.RowOfContents` | quicksnmp.py:81-83 | A successful row holds exactly the bindings' identifiers, each once and in order of first appearance. Each maps to the coerced value of the LAST binding with that identifier, so later bindings overwrite earlier ones. |
| `Rows.CollectRow` | quicksnmp.py:81-83 | The loop filling the dict returns exactly the row RowOf describes, or the first coercion error. |
| `FetchLoop.Drain` | quicksnmp.py:72-93 | Never consumes more responses than exist. A successful drain has exactly `count` rows. |
| `FetchLoop.ResponseSource.Next` | quicksnmp.py:78 | `next(handler)` yields the next response and advances by one. At the end it signals StopIteration and does not move. |
| `FetchLoop.PullItem` | quicksnmp.py:75-92 | The inner retry loop for one item has the effect Drain gives to the first item. On success the rest continues with a reset retry counter. A failure ends the call. |
| `FetchLoop.Fetch` | quicksnmp.py:72-93 | The result and the number of responses pulled are those of Drain on the remaining responses, with `range(count)` iterations. For `count <= 0` it returns `[]` and pulls nothing. A normal return has exactly `count` rows. |
| `FetchProperties.DrainBounds` | quicksnmp.py:74-76 | A successful fetch pulls at least one response per item. It pulls at most RETRY_LIMIT (3) per item, counting failures already recorded. |
| `FetchProperties.DrainSucceedsIff` | quicksnmp.py:72-93 | `fetch` returns `rows` after pulling `n` responses iff: those `n` hold exactly `count` successes; they end with a success; no three consecutive ones fail; and the successes' rows, in order, are `rows`. |
| `FetchProperties.DrainFirstItem` | quicksnmp.py:76-89 | For one item, 0, 1 or 2 failures and then a success give that success's row, using failures+1 responses. The next item starts with a fresh budget. If the row's values cannot be coerced, the call aborts without a retry. |
| `FetchProperties.DrainGivesUp` | quicksnmp.py:88-90 | The failure that reaches RETRY_LIMIT for one item raises a ProtocolError with that response's indication, status and index. Nothing after it is pulled, so no later item is processed. |
| `FetchProperties.DrainSequential` | quicksnmp.py:74-76 | Items are independent. Once a prefix completes some items, the remaining items drain from the rest with a reset retry counter. Rows concatenate and consumption adds up. |
| `FetchProperties.DrainReadsNoFurther` | quicksnmp.py:76-85 | `fetch` never looks beyond the responses it consumes: whatever follows them does not change the outcome. |
| `FetchProperties.DrainIgnoresErrorIndex` | quicksnmp.py:80 | Responses that differ only in their error index are consumed alike, and succeed alike with the same rows. |
| `Commands.Get` | quicksnmp.py:20-28 | Sends a read request for `oids`. Returns element 0 of `fetch(handler, 1)`, which is its only row, or `fetch`'s error. |
| `Commands.Set` | quicksnmp.py:31-39 | Sends a write request for the pairs. Returns the single row of `fetch(handler, 1)`, or its error. |
| `Commands.GetBulk` | quicksnmp.py:42-52 | Sends a bulk request with `start_from` non-repeaters and `count` repetitions. Returns all rows of `fetch(handler, count)`: exactly `count` rows on success. |
| `Commands.GetBulkAuto` | quicksnmp.py:55-58 | Runs `get` on the count identifier. A `get` failure propagates. A missing key is a KeyError. A non-int value is a TypeError (from `range`) and nothing is pulled from the bulk iterator. With an int value, `get_bulk` runs with that int as `count`. |

## Left out

- The pysnmp calls (`getCmd`, `setCmd`, `bulkCmd`, `UdpTransportTarget`, `SnmpEngine`, `ContextData`, `ObjectIdentity`, `ObjectType`) are network I/O and foreign code. Each command receives the response iterator as a `ResponseSource` and returns the request it built. How the responses relate to the request is not modelled.
- The `target`, `port`, `credentials`, `engine` and `context` arguments go only to the library. They are not parameters of the model, and the shared default `engine`/`context` objects are not modelled.
- The retry `print` and the exception messages (quicksnmp.py:69, 90, 92) are logging and string formatting only. The model keeps their payloads: the type name, and whether an error indication was set, the status and the index.
- Coercion.Cast: floats are modelled as exact reals. A TimeTicks value becomes its tick count exactly, which is also what `float` gives for 32-bit tick counts. IEEE rounding of Python floats is not modelled.
- Coercion.Cast: `str` of an OctetString is modelled as its text. The decoding of raw bytes into text by pysnmp is not modelled, and neither is the rendering of an OID with `str`: bindings carry identifiers as strings.
- Coercion.Cast: `cast` compares `type(value)` exactly, so subclasses (a `bool`, for instance) fall into `Other`. The 32-bit ranges of the rfc1902 integer types are not enforced, since those values come from the library.
- Exceptions that pysnmp raises while building a command are not modelled. They propagate unchanged in the source.
- Commands.GetBulkAuto: with a count that is not an int, the source still enters `get_bulk`, builds the units and creates the lazy bulk command, and only then does `range(count)` raise inside `fetch`. The model raises the TypeError before building that request and returns no bulk request. In both cases nothing is sent and no response is pulled.
