/** The result of a query job: the wire names of its result formats and the
    object that carries a job's result size (JobResult.java). */
module JobResults {

  import opened JavaLong

  /** The result formats a job's result can be fetched in. */
  datatype Format = MsgPack | MsgPackGz | Json | Unknown

  /** The wire names of the formats `ToFormat` recognises, with the name
      `ToFormatName` gives to `Unknown`. */
  const FORMAT_NAMES: set<string> := {"msgpack", "msgpack.gz", "json", "unknown"}

  /** Parses a wire name by exact, case-sensitive comparison; every name it
      does not know, "unknown" among them, becomes `Unknown`. */
  function ToFormat(formatName: string): (f: Format)
    ensures f == MsgPack <==> formatName == "msgpack"
    ensures f == MsgPackGz <==> formatName == "msgpack.gz"
    ensures f == Json <==> formatName == "json"
    ensures f == Unknown <==> formatName !in {"msgpack", "msgpack.gz", "json"}
  {
    if formatName == "msgpack" then MsgPack
    else if formatName == "msgpack.gz" then MsgPackGz
    else if formatName == "json" then Json
    else Unknown
  }

  /** The wire name of a format. */
  function ToFormatName(format: Format): (name: string)
    ensures name in FORMAT_NAMES
  {
    match format
    case MsgPack => "msgpack"
    case MsgPackGz => "msgpack.gz"
    case Json => "json"
    case Unknown => "unknown"
  }

  /** Naming a format and parsing the name gives the format back, `Unknown`
      included. */
  lemma FormatRoundTrip(format: Format)
    ensures ToFormat(ToFormatName(format)) == format
  {
  }

  /** Parsing a name and naming the result gives the name back exactly for the
      four names in `FORMAT_NAMES`; any other name comes back as "unknown". */
  lemma FormatNameRoundTrip(formatName: string)
    ensures ToFormatName(ToFormat(formatName)) == formatName <==> formatName in FORMAT_NAMES
    ensures formatName !in FORMAT_NAMES ==> ToFormatName(ToFormat(formatName)) == "unknown"
  {
  }

  /** Distinct formats have distinct wire names. */
  lemma FormatNameInjective(f: Format, g: Format)
    ensures ToFormatName(f) == ToFormatName(g) ==> f == g
  {
    FormatRoundTrip(f);
    FormatRoundTrip(g);
  }

  /** Comparison is case-sensitive and "unknown" is not special: these names
      all parse to the catch-all. */
  lemma UnrecognisedFormatNames()
    ensures ToFormat("unknown") == Unknown
    ensures ToFormat("") == Unknown
    ensures ToFormat("JSON") == Unknown
    ensures ToFormat("MsgPack") == Unknown
    ensures ToFormat("msgpack.gz ") == Unknown
  {
  }

  /** The job a result belongs to; only its id is used here. */
  datatype Job = Job(jobId: string)

  /** A job's result. `job` and `format` are fixed when it is built;
      `resultSize` is the one field a method updates. */
  class JobResult {
    const job: Job
    /** The model name the result is registered under: the job's id. */
    const name: string := job.jobId
    /** Every result is fetched as gzipped msgpack. */
    const format: Format := MsgPackGz
    var resultSize: Long

    /** A new result for `job`, its size still 0. */
    constructor (job: Job)
      ensures this.job == job && name == job.jobId
      ensures format == MsgPackGz
      ensures resultSize == 0
    {
      this.job := job;
      resultSize := 0;
    }

    /** The job this result belongs to, whose id is the result's name. */
    function GetJob(): (j: Job)
      ensures j == job && j.jobId == name
    {
      job
    }

    /** The result format, the same for every result. */
    function GetFormat(): (f: Format)
      ensures f == MsgPackGz
    {
      format
    }

    /** The size last recorded, 0 before any. */
    function GetResultSize(): (size: Long)
      reads this
      ensures size == resultSize
    {
      resultSize
    }

    /** Records the result size; nothing else about the result changes. */
    method SetResultSize(size: Long)
      modifies this`resultSize
      ensures GetResultSize() == size
      ensures GetJob() == job && GetFormat() == MsgPackGz
    {
      resultSize := size;
    }
  }

  /** A new result whose size is then recorded reads back that size, and its
      format is still the one the constructor chose. */
  method SetThenGetResultSize(job: Job, size: Long) returns (format: Format, recorded: Long)
    ensures format == MsgPackGz && recorded == size
  {
    var r := new JobResult(job);
    r.SetResultSize(size);
    format, recorded := r.GetFormat(), r.GetResultSize();
  }
}
