/**
  `process_fio_results` and `convert_latency_to_us` of fio_monitor.py: a fio
  document becomes one flat record, keyed by the three metadata keys and then
  by job name.
 */
module Normalizer {
  import opened Wrappers
  import opened OrderedDict
  import opened FioOutput

  datatype Latency = Latency(min: real, max: real, mean: real)

  /** The normalized `read` or `write` part of a job. */
  datatype DirResult = DirResult(
    iops: real,
    bwBytes: real,
    bwKbps: real,
    latencyNs: Latency,
    percentiles: Dict<string, real>,
    latencyUs: Latency)

  datatype JobResult = JobResult(read: DirResult, write: DirResult, cpu: real)

  /** A value stored in a record: the timestamp or test name, the echoed global options, or a job. */
  datatype Value = Text(text: string) | Options(options: Dict<string, string>) | JobEntry(job: JobResult)

  /** One normalized test result. */
  type Record = Dict<string, Value>

  const MetadataKeys: seq<string> := ["timestamp", "test_name", "global_options"]
  const UnknownJob: string := "unknown"

  /** The keys that `extract_key_metrics` and the analyzer skip. */
  predicate IsMetadataKey(k: string) {
    k == "timestamp" || k == "test_name" || k == "global_options"
  }

  const NoLatency: LatNs := LatNs(None, None, None)
  const NoStats: DirStats := DirStats(None, None, None, None, None)
  const ZeroLatency: Latency := Latency(0.0, 0.0, 0.0)
  const ZeroDir: DirResult := DirResult(0.0, 0.0, 0.0, ZeroLatency, [], ZeroLatency)

  /** Nanoseconds to microseconds, each of min, max and mean on its own; a missing one reads as 0. */
  function ConvertLatencyToUs(latencyNs: LatNs): (us: Latency)
    ensures us.min * 1000.0 == latencyNs.min.GetOr(0.0)
    ensures us.max * 1000.0 == latencyNs.max.GetOr(0.0)
    ensures us.mean * 1000.0 == latencyNs.mean.GetOr(0.0)
    ensures latencyNs == NoLatency ==> us == ZeroLatency
  {
    Latency(latencyNs.min.GetOr(0.0) / 1000.0,
            latencyNs.max.GetOr(0.0) / 1000.0,
            latencyNs.mean.GetOr(0.0) / 1000.0)
  }

  /** The `read` or `write` block of a job result, every missing field defaulted. */
  function DirResultOf(stats: DirStats): (r: DirResult)
    ensures stats.iops.Some? ==> r.iops == stats.iops.value
    ensures stats.iops.None? ==> r.iops == 0.0
    ensures stats.bwBytes.Some? ==> r.bwBytes == stats.bwBytes.value
    ensures stats.bwBytes.None? ==> r.bwBytes == 0.0
    ensures stats.bwKbps.Some? ==> r.bwKbps == stats.bwKbps.value
    ensures stats.bwKbps.None? ==> r.bwKbps == 0.0
    ensures stats.latNs.Some? && stats.latNs.value.min.Some? ==> r.latencyNs.min == stats.latNs.value.min.value
    ensures stats.latNs.Some? && stats.latNs.value.max.Some? ==> r.latencyNs.max == stats.latNs.value.max.value
    ensures stats.latNs.Some? && stats.latNs.value.mean.Some? ==> r.latencyNs.mean == stats.latNs.value.mean.value
    ensures stats.latNs.None? || stats.latNs.value.min.None? ==> r.latencyNs.min == 0.0
    ensures stats.latNs.None? || stats.latNs.value.max.None? ==> r.latencyNs.max == 0.0
    ensures stats.latNs.None? || stats.latNs.value.mean.None? ==> r.latencyNs.mean == 0.0
    ensures stats.clatNs.Some? && stats.clatNs.value.percentile.Some? ==>
      r.percentiles == stats.clatNs.value.percentile.value
    ensures stats.clatNs.None? || stats.clatNs.value.percentile.None? ==> r.percentiles == []
    ensures r.latencyUs == ConvertLatencyToUs(stats.latNs.GetOr(NoLatency))
    ensures r.latencyNs.min == r.latencyUs.min * 1000.0
    ensures r.latencyNs.max == r.latencyUs.max * 1000.0
    ensures r.latencyNs.mean == r.latencyUs.mean * 1000.0
    ensures stats == NoStats ==> r == ZeroDir
  {
    var lat := stats.latNs.GetOr(NoLatency);
    DirResult(
      stats.iops.GetOr(0.0),
      stats.bwBytes.GetOr(0.0),
      stats.bwKbps.GetOr(0.0),
      Latency(lat.min.GetOr(0.0), lat.max.GetOr(0.0), lat.mean.GetOr(0.0)),
      stats.clatNs.GetOr(ClatNs(None)).percentile.GetOr([]),
      ConvertLatencyToUs(lat))
  }

  /** The normalized form of one job. */
  function JobResultOf(job: Job): (r: JobResult)
    ensures job.read.Some? ==> r.read == DirResultOf(job.read.value)
    ensures job.read.None? ==> r.read == ZeroDir
    ensures job.write.Some? ==> r.write == DirResultOf(job.write.value)
    ensures job.write.None? ==> r.write == ZeroDir
    ensures r.cpu == job.usrCpu.GetOr(0.0) + job.sysCpu.GetOr(0.0)
  {
    JobResult(
      DirResultOf(job.read.GetOr(NoStats)),
      DirResultOf(job.write.GetOr(NoStats)),
      job.usrCpu.GetOr(0.0) + job.sysCpu.GetOr(0.0))
  }

  /** The key a job is stored under. */
  function JobKey(job: Job): string {
    job.jobname.GetOr(UnknownJob)
  }

  function JobsOf(doc: Document): seq<Job> {
    doc.jobs.GetOr([])
  }

  /** The record before any job is added: timestamp, test name, global options. */
  function Header(testName: string, doc: Document, now: string): Record {
    [("timestamp", Text(now)),
     ("test_name", Text(testName)),
     ("global_options", Options(doc.globalOptions.GetOr([])))]
  }

  /** The assignments `results[job_name] = job_results`, one per job, in document order. */
  function JobEntries(jobs: seq<Job>): (kvs: seq<(string, Value)>)
    ensures |kvs| == |jobs|
    ensures forall i :: 0 <= i < |jobs| ==> kvs[i] == (JobKey(jobs[i]), JobEntry(JobResultOf(jobs[i])))
  {
    seq(|jobs|, i requires 0 <= i < |jobs| => (JobKey(jobs[i]), JobEntry(JobResultOf(jobs[i]))))
  }

  /** The record `process_fio_results` returns. */
  function Normalized(testName: string, doc: Document, now: string): Record {
    PutAll(Header(testName, doc, now), JobEntries(JobsOf(doc)))
  }

  /** Every non-metadata entry of a record holds a job. */
  predicate JobsTyped(r: Record) {
    forall i :: 0 <= i < |r| && !IsMetadataKey(r[i].0) ==> r[i].1.JobEntry?
  }

  /** The shape every record the monitor produces has. */
  predicate WellFormed(r: Record) {
    && DistinctKeys(r)
    && "timestamp" in Keys(r) && "test_name" in Keys(r) && "global_options" in Keys(r)
    && JobsTyped(r)
  }

  /** The loop of `process_fio_results` over the document's jobs. */
  method ProcessFioResults(testName: string, doc: Document, now: string) returns (results: Record)
    ensures results == Normalized(testName, doc, now)
  {
    results := [("timestamp", Text(now)),
                ("test_name", Text(testName)),
                ("global_options", Options(doc.globalOptions.GetOr([])))];
    var jobs := doc.jobs.GetOr([]);
    ghost var entries := JobEntries(jobs);
    var i := 0;
    while i < |jobs|
      invariant 0 <= i <= |jobs|
      invariant results == PutAll(Header(testName, doc, now), entries[..i])
    {
      var job := jobs[i];
      var jobName := job.jobname.GetOr(UnknownJob);
      var jobResults := JobResultOf(job);
      PutAllSnoc(Header(testName, doc, now), entries, i);
      results := Put(results, jobName, JobEntry(jobResults));
      i := i + 1;
    }
    assert entries[..i] == entries;
  }

  /** Some job of the list is stored under `k`. */
  predicate HasJobNamed(jobs: seq<Job>, k: string) {
    exists i :: 0 <= i < |jobs| && JobKey(jobs[i]) == k
  }

  lemma EntryKeys(jobs: seq<Job>, k: string)
    ensures k in Keys(JobEntries(jobs)) <==> HasJobNamed(jobs, k)
  {
    var kvs := JobEntries(jobs);
    if k in Keys(kvs) {
      var i :| 0 <= i < |kvs| && Keys(kvs)[i] == k;
      assert JobKey(jobs[i]) == k;
    }
    if HasJobNamed(jobs, k) {
      var i :| 0 <= i < |jobs| && JobKey(jobs[i]) == k;
      assert Keys(kvs)[i] == k;
    }
  }

  /** The record starts with the three metadata keys, in that order. */
  lemma NormalizedStartsWithMetadata(testName: string, doc: Document, now: string)
    ensures |Normalized(testName, doc, now)| >= 3
    ensures Keys(Normalized(testName, doc, now))[..3] == MetadataKeys
  {
    assert Keys(Header(testName, doc, now)) == MetadataKeys;
  }

  /** The record's keys are exactly the metadata keys and the job names. */
  lemma NormalizedKeys(testName: string, doc: Document, now: string, k: string)
    ensures k in Keys(Normalized(testName, doc, now)) <==> IsMetadataKey(k) || HasJobNamed(JobsOf(doc), k)
  {
    var h := Header(testName, doc, now);
    assert Keys(h) == MetadataKeys;
    PutAllKeys(h, JobEntries(JobsOf(doc)), k);
    EntryKeys(JobsOf(doc), k);
  }

  /** Every entry of the record under a non-metadata key came from a job. */
  lemma NormalizedEntryIsJob(testName: string, doc: Document, now: string, i: nat)
    requires i < |Normalized(testName, doc, now)|
    ensures !IsMetadataKey(Normalized(testName, doc, now)[i].0) ==> Normalized(testName, doc, now)[i].1.JobEntry?
  {
    var h := Header(testName, doc, now);
    var kvs := JobEntries(JobsOf(doc));
    var r := PutAll(h, kvs);
    var k := r[i].0;
    if !IsMetadataKey(k) {
      assert Keys(h) == MetadataKeys;
      assert DistinctKeys(h);
      PutAllDistinct(h, kvs);
      GetDistinct(r, i);
      GetPutAll(h, kvs, k);
      LastGetFound(kvs, k);
    }
  }

  /** The record repeats no key, has the three metadata keys, and holds a job under every other key. */
  lemma NormalizedWellFormed(testName: string, doc: Document, now: string)
    ensures WellFormed(Normalized(testName, doc, now))
  {
    var h := Header(testName, doc, now);
    var kvs := JobEntries(JobsOf(doc));
    var r := PutAll(h, kvs);
    assert Keys(h) == MetadataKeys;
    assert DistinctKeys(h);
    PutAllDistinct(h, kvs);
    PutAllKeys(h, kvs, "timestamp");
    PutAllKeys(h, kvs, "test_name");
    PutAllKeys(h, kvs, "global_options");
    forall i | 0 <= i < |r| && !IsMetadataKey(r[i].0) ensures r[i].1.JobEntry? {
      NormalizedEntryIsJob(testName, doc, now, i);
    }
  }

  /** A name no job has keeps its metadata value, or stays absent. */
  lemma NormalizedLookupUnnamed(testName: string, doc: Document, now: string, k: string)
    requires !HasJobNamed(JobsOf(doc), k)
    ensures Get(Normalized(testName, doc, now), k) == Get(Header(testName, doc, now), k)
  {
    var kvs := JobEntries(JobsOf(doc));
    GetPutAll(Header(testName, doc, now), kvs, k);
    EntryKeys(JobsOf(doc), k);
  }

  /** A later job with the same name overwrites an earlier one: the last job named `k` is what is stored. */
  lemma NormalizedLookupNamed(testName: string, doc: Document, now: string, i: nat)
    requires i < |JobsOf(doc)|
    requires forall j :: i < j < |JobsOf(doc)| ==> JobKey(JobsOf(doc)[j]) != JobKey(JobsOf(doc)[i])
    ensures Get(Normalized(testName, doc, now), JobKey(JobsOf(doc)[i])) == Some(JobEntry(JobResultOf(JobsOf(doc)[i])))
  {
    var kvs := JobEntries(JobsOf(doc));
    GetPutAll(Header(testName, doc, now), kvs, JobKey(JobsOf(doc)[i]));
    LastGetIsLast(kvs, i);
  }

  /** A document with no jobs gives the three metadata entries and nothing else. */
  lemma NoJobsOnlyMetadata(testName: string, doc: Document, now: string)
    requires JobsOf(doc) == []
    ensures Keys(Normalized(testName, doc, now)) == MetadataKeys
    ensures Get(Normalized(testName, doc, now), "timestamp") == Some(Text(now))
    ensures Get(Normalized(testName, doc, now), "test_name") == Some(Text(testName))
    ensures Get(Normalized(testName, doc, now), "global_options") == Some(Options(doc.globalOptions.GetOr([])))
  {
    assert JobEntries(JobsOf(doc)) == [];
  }
}
