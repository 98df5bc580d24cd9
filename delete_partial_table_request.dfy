/** A request to delete the rows of a table whose time lies in a range of
    whole hours (DeletePartialTableRequest.java). */
module DeletePartialTableRequests {

  import opened JavaLong
  import opened Wrappers
  import opened Tables

  /** Seconds in an hour: both ends of a range must be multiples of it. */
  const HOUR: Long := 3600

  /** Which of the two checks rejected a range. */
  datatype RangeError = InvalidTo | InvalidFrom

  /** The table, and the range `[from, to)` in epoch seconds. The destructors
      are the getters; nothing changes the fields after construction. */
  datatype DeletePartialTableRequest = DeletePartialTableRequest(table: Table, from: Long, to: Long)

  /** The requests that can exist: the constructor rejects every other range. */
  type Request = r: DeletePartialTableRequest | ValidRange(r.from, r.to)
    witness DeletePartialTableRequest(Table(Database(""), "", Log), 3600, 7200)

  /** The first check, in plain integer terms: `to` is a positive whole hour. */
  predicate ValidTo(to: Long)
    ensures ValidTo(to) ==> to >= HOUR
  {
    to > 0 && (to as int) % (HOUR as int) == 0
  }

  /** The second check, in plain integer terms: `from` is a positive whole
      hour before `to`. */
  predicate ValidFrom(from: Long, to: Long)
    ensures ValidFrom(from, to) ==> HOUR <= from < to
  {
    from > 0 && from < to && (from as int) % (HOUR as int) == 0
  }

  /** The ranges a request accepts. */
  predicate ValidRange(from: Long, to: Long)
    ensures ValidRange(from, to) ==> HOUR <= from && to as int - from as int >= HOUR as int
  {
    ValidTo(to) && ValidFrom(from, to)
  }

  /** The two checks of the constructor, on Java's operators and in its order:
      `None` when both pass, otherwise the check that failed first. Each
      remainder is taken only once its operand is known positive, where Java's
      remainder is Dafny's, and `to - from` is taken only with both positive,
      where it cannot wrap. */
  function ValidateParameters(from: Long, to: Long): (r: Option<RangeError>)
    ensures r == None <==> ValidRange(from, to)
    ensures !ValidTo(to) ==> r == Some(InvalidTo)
    ensures r == Some(InvalidFrom) <==> ValidTo(to) && !ValidFrom(from, to)
  {
    if to <= 0 || (JavaRemOfNonNegative(to, HOUR); JavaRem(to, HOUR) != 0) then
      Some(InvalidTo)
    else if from <= 0 || (SubOfPositivesIsExact(to, from); Sub(to, from) <= 0)
            || (JavaRemOfNonNegative(from, HOUR); JavaRem(from, HOUR) != 0) then
      Some(InvalidFrom)
    else
      None
  }

  /** The constructor: the request over `table` and `[from, to)`, or the check
      that rejected the range. */
  function New(table: Table, from: Long, to: Long): (r: Result<Request, RangeError>)
    ensures r.Success? <==> ValidRange(from, to)
    ensures r.Success? ==> r.value.table == table && r.value.from == from && r.value.to == to
    ensures !ValidTo(to) ==> r == Failure(InvalidTo)
    ensures r == Failure(InvalidFrom) <==> ValidTo(to) && !ValidFrom(from, to)
  {
    match ValidateParameters(from, to)
    case Some(e) => Failure(e)
    case None => Success(DeletePartialTableRequest(table, from, to))
  }

  /** Every request covers a whole number of hours, and at least one. */
  lemma RequestSpansWholeHours(r: Request)
    ensures (r.to as int - r.from as int) % 3600 == 0
    ensures r.to as int - r.from as int >= 3600
  {
    var a, b := (r.from as int) / 3600, (r.to as int) / 3600;
    assert r.from as int == 3600 * a && r.to as int == 3600 * b;
    assert a < b;
  }

  /** Sample ranges: the accepted hour, and each way of failing. */
  lemma SampleRanges(table: Table)
    ensures New(table, 3600, 7200).Success?
    ensures New(table, 3600, 3600) == Failure(InvalidFrom)
    ensures New(table, 7200, 3600) == Failure(InvalidFrom)
    ensures New(table, 0, 3600) == Failure(InvalidFrom)
    ensures New(table, 1800, 3600) == Failure(InvalidFrom)
    ensures New(table, 3600, 5400) == Failure(InvalidTo)
    ensures New(table, 3600, -3600) == Failure(InvalidTo)
    ensures New(table, MIN_LONG as Long, 0) == Failure(InvalidTo)
  {
  }
}
