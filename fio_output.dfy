/**
  The parts of fio's JSON output that the monitor reads. Every field the
  monitor fetches with `.get(key, default)` is an `Option` here: `None` stands
  for a key absent from the document.
 */
module FioOutput {
  import opened Wrappers
  import opened OrderedDict

  /** `lat_ns`: total latency summary in nanoseconds. */
  datatype LatNs = LatNs(min: Option<real>, max: Option<real>, mean: Option<real>)

  /** `clat_ns`: completion latency; only its percentile table is read. */
  datatype ClatNs = ClatNs(percentile: Option<Dict<string, real>>)

  /** A job's `read` or `write` section. */
  datatype DirStats = DirStats(
    iops: Option<real>,
    bwBytes: Option<real>,
    bwKbps: Option<real>,
    latNs: Option<LatNs>,
    clatNs: Option<ClatNs>)

  /** One element of `jobs`. */
  datatype Job = Job(
    jobname: Option<string>,
    read: Option<DirStats>,
    write: Option<DirStats>,
    usrCpu: Option<real>,
    sysCpu: Option<real>)

  /** The top-level document: `global options` and `jobs`. */
  datatype Document = Document(globalOptions: Option<Dict<string, string>>, jobs: Option<seq<Job>>)

  /** What `json.loads` made of the child's standard output. */
  datatype Stdout = Json(doc: Document) | NotJson

  /**
    How the `subprocess.run` call ended: the child exited with a return code,
    or the timeout expired, or the call raised some other exception (the
    program is missing, the document has fields of unexpected types, ...).
   */
  datatype Outcome = Exited(returnCode: int, stdout: Stdout) | TimedOut | Raised
}
