# td-client-java model layer in Dafny

This project models three small pieces of the domain model of the Treasure Data
Java client and proves their behaviour:

- `JobResult`: the result formats of a query job (`msgpack`, `msgpack.gz`,
  `json`, and a catch-all), the codec between formats and their wire names,
  and the result object, whose format is fixed at gzipped msgpack when it is
  built and whose result size can be set later (`job_result.dfy`).
- `Table`: the table types (`log`, `item`, and a catch-all), the codec between
  types and their wire names, and the immutable table record with its two
  constructors (`table.dfy`).
- `DeletePartialTableRequest`: a request to delete the part of a table that
  lies in the range `[from, to)` of epoch seconds. It is accepted only when
  both ends are positive whole hours and `from < to`. The check on `to` runs
  first (`delete_partial_table_request.dfy`).

Java's `long` is the newtype `JavaLong.Long`. Java's truncating `%` and
wrapping `-` are written out (`JavaLong.JavaRem`, `JavaLong.Sub`) in
`java_long.dfy`. `JavaRem` follows the Java language's own rule for `%`: the
magnitude is what is left of the dividend's magnitude after removing the
divisor's as often as it fits, and the sign is the dividend's. The validator is stated on those operators, as the code
evaluates it. Its contract restates it in plain integer terms. Each remainder
is taken only on a positive operand, and `to - from` only when both are
positive, so the two readings agree. A thrown `IllegalArgumentException`
becomes a `Failure` that names the check that failed (`Wrappers.Result`).
Since the Java constructor always validates and the fields have no setters,
every request that exists has a valid range: the subset type
`DeletePartialTableRequests.Request` carries that invariant, and `New`
returns it.

In `JobResult`, `job` and `format` are constants of the class (the source only
assigns them in the constructor); `resultSize` is the one field a method
updates.

`Job` and `Database` are not part of this model beyond a record that carries
an id or a name. The model name that `JobResult` and `Table` pass to their
base class is kept as a field (`name`).

## Model

| member | source | states |
|---|---|---|
| `JobResults.ToFormat` | src/main/java/com/treasure_data/model/JobResult.java:28-38 | exactly "msgpack", "msgpack.gz" and "json" map to MsgPack, MsgPackGz and Json, by case-sensitive equality; every other name maps to Unknown |
| `JobResults.ToFormatName` | src/main/java/com/treasure_data/model/JobResult.java:40-51 | every format is named by one of "msgpack", "msgpack.gz", "json", "unknown" |
| `JobResults.FormatRoundTrip` | src/main/java/com/treasure_data/model/JobResult.java:28-51 | parsing the name of any format, Unknown included, gives that format back |
| `JobResults.FormatNameRoundTrip` | src/main/java/com/treasure_data/model/JobResult.java:28-51 | naming the parse of a string gives the string back iff it is one of the four wire names; any other string comes back as "unknown" |
| `JobResults.FormatNameInjective` | src/main/java/com/treasure_data/model/JobResult.java:40-51 | distinct formats have distinct names |
| `JobResults.UnrecognisedFormatNames` | src/main/java/com/treasure_data/model/JobResult.java:35-37 | "unknown", "", "JSON", "MsgPack" and "msgpack.gz " all parse to Unknown |
| `JobResults.JobResult.constructor` | src/main/java/com/treasure_data/model/JobResult.java:61-65 | a new result wraps the given job, is named by its job id, has format MsgPackGz and result size 0 |
| `JobResults.JobResult.GetJob` | src/main/java/com/treasure_data/model/JobResult.java:67-69 | returns the job the result was built for, whose id is the result's name |
| `JobResults.JobResult.GetFormat` | src/main/java/com/treasure_data/model/JobResult.java:87-89 | every result reports format MsgPackGz: the field is fixed at construction and nothing writes it |
| `JobResults.JobResult.GetResultSize` | src/main/java/com/treasure_data/model/JobResult.java:75-77 | returns the stored size without changing anything; with the constructor and SetResultSize, that is 0 until a size is set and then the last size set |
| `JobResults.JobResult.SetResultSize` | src/main/java/com/treasure_data/model/JobResult.java:71-77 | after setting, the result size reads back as the value set; only the size field is written, so job and format are unchanged |
| `JobResults.SetThenGetResultSize` | src/main/java/com/treasure_data/model/JobResult.java:61-89 | a freshly built result whose size is then set reports format MsgPackGz and the size set |
| `Tables.ToType` | src/main/java/com/treasure_data/model/Table.java:25-33 | exactly "log" and "item" map to Log and Item; every other name maps to Unknown |
| `Tables.ToTypeName` | src/main/java/com/treasure_data/model/Table.java:35-44 | every type is named by one of "log", "item", "unknown" |
| `Tables.TypeRoundTrip` | src/main/java/com/treasure_data/model/Table.java:25-44 | parsing the name of any type gives that type back |
| `Tables.TypeNameRoundTrip` | src/main/java/com/treasure_data/model/Table.java:25-44 | naming the parse of a string gives the string back iff it is "log", "item" or "unknown"; otherwise "unknown" |
| `Tables.TypeNameInjective` | src/main/java/com/treasure_data/model/Table.java:35-44 | distinct types have distinct names |
| `Tables.UnrecognisedTypeNames` | src/main/java/com/treasure_data/model/Table.java:30-32 | "unknown", "", "LOG" and "items" all parse to Unknown |
| `Tables.NewTypedTable` | src/main/java/com/treasure_data/model/Table.java:54-70 | the three-argument constructor keeps database, name and type as given, and the getters return them |
| `Tables.NewTable` | src/main/java/com/treasure_data/model/Table.java:50-52 | the two-argument constructor is the three-argument one with type Log |
| `JavaLong.JavaRem` | src/main/java/com/treasure_data/model/DeletePartialTableRequest.java:34-37 | Java's remainder is smaller in magnitude than the divisor and has the sign of the dividend |
| `JavaLong.NatRem` | src/main/java/com/treasure_data/model/DeletePartialTableRequest.java:34-37 | the magnitude of the remainder is below the divisor and at most the dividend |
| `JavaLong.NatRemIsEuclidean` | src/main/java/com/treasure_data/model/DeletePartialTableRequest.java:34-37 | removing the divisor as often as it fits leaves exactly Dafny's Euclidean remainder |
| `JavaLong.JavaRemOfNonNegative` | src/main/java/com/treasure_data/model/DeletePartialTableRequest.java:34-37 | on a non-negative dividend Java's remainder equals Dafny's Euclidean one |
| `JavaLong.JavaRemZeroIff` | src/main/java/com/treasure_data/model/DeletePartialTableRequest.java:34-37 | for any dividend, Java's remainder is zero iff the Euclidean one is |
| `JavaLong.Sub` | src/main/java/com/treasure_data/model/DeletePartialTableRequest.java:37 | long subtraction is the exact difference modulo 2^64, and exact when the difference fits in a long |
| `JavaLong.SubOfPositivesIsExact` | src/main/java/com/treasure_data/model/DeletePartialTableRequest.java:37 | the difference of two positive longs never wraps |
| `DeletePartialTableRequests.ValidTo` | src/main/java/com/treasure_data/model/DeletePartialTableRequest.java:34 | the first check in integer terms: a valid end is a positive multiple of 3600, hence at least 3600 |
| `DeletePartialTableRequests.ValidFrom` | src/main/java/com/treasure_data/model/DeletePartialTableRequest.java:37 | the second check in integer terms: a valid start is a positive multiple of 3600 below the end, hence at least 3600 |
| `DeletePartialTableRequests.ValidRange` | src/main/java/com/treasure_data/model/DeletePartialTableRequest.java:33-40 | the ranges both checks accept; such a range starts at 3600 or later and is at least 3600 seconds long |
| `DeletePartialTableRequests.ValidateParameters` | src/main/java/com/treasure_data/model/DeletePartialTableRequest.java:33-40 | the checks pass iff to and from are positive multiples of 3600 with from < to; an invalid to fails with InvalidTo whatever from is; InvalidFrom arises iff to is valid and from is not |
| `DeletePartialTableRequests.New` | src/main/java/com/treasure_data/model/DeletePartialTableRequest.java:26-48 | construction succeeds iff the range is valid, and then the request holds the table, from and to exactly; otherwise it fails with the first check that failed; what it returns is a `Request`, whose range is valid by its type |
| `DeletePartialTableRequests.RequestSpansWholeHours` | src/main/java/com/treasure_data/model/DeletePartialTableRequest.java:26-48 | every request that can exist spans a whole number of hours, at least one |
| `DeletePartialTableRequests.SampleRanges` | src/main/java/com/treasure_data/model/DeletePartialTableRequest.java:33-40 | [3600, 7200) is accepted; empty, reversed, zero-start and half-hour ranges fail on from; a half-hour, negative or zero end fails on to |

## Left out

- The HTTP request engine (retries on 429, `Retry-After` parsing, the retry
  budget, the content-length handler): `TDHttpClient.java` is not part of this
  model. Its tests are not modelled either: they exercise the engine without
  fixing how it is implemented.
- `JobResult`'s `result` field with `setResult`/`getResult`: it holds a msgpack
  `Unpacker`, a foreign library object with no behaviour here.
- The text of the `IllegalArgumentException` messages: a failure is a tag
  (`InvalidTo` or `InvalidFrom`). So the model does not show that the message
  for a bad `to` prints the value of `from`.
- `null` arguments: Java's `equals` and `switch` throw
  `NullPointerException` on a null name or type; Dafny strings and datatypes
  are never null.
- `Job`, `Database`, `AbstractModel` and `TableSpecifyRequest` beyond the id
  or name they carry.
- Tests under `src/test`: they drive a live server or mock connections.
