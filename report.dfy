/**
  `extract_key_metrics`, `aggregate_test_results` and the summary built by
  `generate_report` in fio_monitor.py.
 */
module Report {
  import opened Wrappers
  import opened OrderedDict
  import opened Normalizer
  import opened Invoker

  /** The literal key under which the 95th percentile is looked up. */
  const P95Key: string := "95.000000"

  /** The per-job figures a report shows. */
  datatype KeyMetrics = KeyMetrics(
    readIops: real,
    writeIops: real,
    readLatencyUsP95: real,
    writeLatencyUsP95: real,
    readBandwidthKbps: real,
    writeBandwidthKbps: real)

  /** What a report says about one configured test. */
  datatype Aggregate = Aggregate(lastRun: Value, runsCount: nat, latestMetrics: Dict<string, KeyMetrics>)

  /** The report: when it was made, how many results the history holds, one entry per test seen. */
  datatype Report = Report(generatedAt: string, totalTests: nat, summary: Dict<string, Aggregate>)

  /** The 95th-percentile latency in microseconds: the nanosecond value under the literal key, or 0. */
  function P95Us(percentiles: Dict<string, real>): (us: real)
    ensures us * 1000.0 == Get(percentiles, P95Key).GetOr(0.0)
    ensures P95Key !in Keys(percentiles) ==> us == 0.0
  {
    Get(percentiles, P95Key).GetOr(0.0) / 1000.0
  }

  /** The key metrics of one job. */
  function KeyMetricsOf(job: JobResult): (m: KeyMetrics)
    ensures m.readIops == job.read.iops && m.writeIops == job.write.iops
    ensures m.readBandwidthKbps == job.read.bwKbps && m.writeBandwidthKbps == job.write.bwKbps
    ensures m.readLatencyUsP95 * 1000.0 == Get(job.read.percentiles, P95Key).GetOr(0.0)
    ensures m.writeLatencyUsP95 * 1000.0 == Get(job.write.percentiles, P95Key).GetOr(0.0)
  {
    KeyMetrics(job.read.iops, job.write.iops,
               P95Us(job.read.percentiles), P95Us(job.write.percentiles),
               job.read.bwKbps, job.write.bwKbps)
  }

  /** The record's keys other than the metadata keys, in record order. */
  function JobKeys(r: Record): (ks: seq<string>)
    ensures forall k :: k in ks <==> k in Keys(r) && !IsMetadataKey(k)
    ensures |ks| <= |r|
  {
    if r == [] then []
    else
      var last := r[|r| - 1];
      KeysSnoc(r);
      JobKeys(r[..|r| - 1]) + (if IsMetadataKey(last.0) then [] else [last.0])
  }

  /** The dict `extract_key_metrics` returns: metrics per job key, metadata keys skipped. */
  function MetricsOf(r: Record): Dict<string, KeyMetrics>
    requires JobsTyped(r)
  {
    if r == [] then []
    else
      var last := r[|r| - 1];
      var prev := MetricsOf(r[..|r| - 1]);
      if IsMetadataKey(last.0) then prev else Put(prev, last.0, KeyMetricsOf(last.1.job))
  }

  lemma JobsTypedPrefix(r: Record, n: nat)
    requires JobsTyped(r) && n <= |r|
    ensures JobsTyped(r[..n])
  {
    assert forall i :: 0 <= i < n ==> r[..n][i] == r[i];
  }

  /** The loop of `extract_key_metrics` over the record's entries. */
  method ExtractKeyMetrics(result: Record) returns (metrics: Dict<string, KeyMetrics>)
    requires JobsTyped(result)
    ensures metrics == MetricsOf(result)
  {
    metrics := [];
    var i := 0;
    while i < |result|
      invariant 0 <= i <= |result|
      invariant JobsTyped(result[..i])
      invariant metrics == MetricsOf(result[..i])
    {
      var (jobName, jobData) := result[i];
      MetricsOfSnoc(result, i);
      if !IsMetadataKey(jobName) {
        var job := jobData.job;
        var jobMetrics := KeyMetrics(
          job.read.iops,
          job.write.iops,
          Get(job.read.percentiles, P95Key).GetOr(0.0) / 1000.0,
          Get(job.write.percentiles, P95Key).GetOr(0.0) / 1000.0,
          job.read.bwKbps,
          job.write.bwKbps);
        assert jobMetrics == KeyMetricsOf(job);
        metrics := Put(metrics, jobName, jobMetrics);
      }
      i := i + 1;
    }
    assert result[..i] == result;
  }

  /** One more entry of the record adds its job's metrics, unless it is a metadata entry. */
  lemma MetricsOfSnoc(r: Record, i: nat)
    requires JobsTyped(r) && i < |r|
    ensures JobsTyped(r[..i]) && JobsTyped(r[..i + 1])
    ensures MetricsOf(r[..i + 1]) ==
      if IsMetadataKey(r[i].0) then MetricsOf(r[..i]) else Put(MetricsOf(r[..i]), r[i].0, KeyMetricsOf(r[i].1.job))
  {
    JobsTypedPrefix(r, i);
    JobsTypedPrefix(r, i + 1);
    assert r[..i + 1][..i] == r[..i];
  }

  /** The metrics dict has one entry per job key of the record, in record order. */
  lemma {:induction false} MetricsKeys(r: Record)
    requires JobsTyped(r) && DistinctKeys(r)
    ensures Keys(MetricsOf(r)) == JobKeys(r)
  {
    if r != [] {
      var init := r[..|r| - 1];
      var last := r[|r| - 1];
      MetricsKeys(init);
    }
  }

  /** The metrics of a job key are the key metrics of the job stored under it. */
  lemma {:induction false} MetricsLookup(r: Record, k: string, job: JobResult)
    requires JobsTyped(r) && DistinctKeys(r)
    requires !IsMetadataKey(k) && Get(r, k) == Some(JobEntry(job))
    ensures Get(MetricsOf(r), k) == Some(KeyMetricsOf(job))
  {
    var init := r[..|r| - 1];
    var last := r[|r| - 1];
    assert r == init + [last];
    GetAppend(init, last.0, last.1, k);
    if k in Keys(init) {
      MetricsLookup(init, k, job);
      if !IsMetadataKey(last.0) {
        GetPut(MetricsOf(init), last.0, KeyMetricsOf(last.1.job), k);
        var i :| 0 <= i < |init| && Keys(init)[i] == k;
        assert r[i].0 != r[|r| - 1].0;
      }
    } else {
      GetPut(MetricsOf(init), last.0, KeyMetricsOf(last.1.job), k);
    }
  }

  /** Metadata keys, and keys the record lacks, have no metrics. */
  lemma {:induction false} MetricsLookupNone(r: Record, k: string)
    requires JobsTyped(r)
    requires IsMetadataKey(k) || k !in Keys(r)
    ensures Get(MetricsOf(r), k).None?
  {
    if r != [] {
      var init := r[..|r| - 1];
      var last := r[|r| - 1];
      assert Keys(r) == Keys(init) + [last.0];
      MetricsLookupNone(init, k);
      if !IsMetadataKey(last.0) {
        GetPut(MetricsOf(init), last.0, KeyMetricsOf(last.1.job), k);
      }
    }
  }

  /** The record says it is a result of the test `name`. */
  predicate TestNameIs(r: Record, name: string) {
    Get(r, "test_name") == Some(Text(name))
  }

  /** `[r for r in history if r.get("test_name") == name]` */
  function Matching(history: seq<Record>, name: string): (m: seq<Record>)
    ensures m != [] ==> m[|m| - 1] in history
  {
    if history == [] then []
    else
      var last := history[|history| - 1];
      Matching(history[..|history| - 1], name) + (if TestNameIs(last, name) then [last] else [])
  }

  /** The filter keeps only records of the history, and only results of the test `name`. */
  lemma {:induction false} MatchingMembers(history: seq<Record>, name: string)
    ensures forall x :: x in Matching(history, name) ==> x in history && TestNameIs(x, name)
  {
    if history != [] {
      MatchingMembers(history[..|history| - 1], name);
    }
  }

  /** The indices of the history's results of the test `name`. */
  function MatchIndices(history: seq<Record>, name: string): set<nat> {
    set i: nat | i < |history| && TestNameIs(history[i], name)
  }

  /** The matching indices of a history with one more record. */
  lemma MatchIndicesSnoc(history: seq<Record>, name: string)
    requires history != []
    ensures var n := |history| - 1;
      && n !in MatchIndices(history[..n], name)
      && MatchIndices(history, name) ==
           MatchIndices(history[..n], name) + (if TestNameIs(history[n], name) then {n} else {})
  {
    var n := |history| - 1;
    var before := MatchIndices(history[..n], name);
    var after := before + (if TestNameIs(history[n], name) then {n} else {});
    forall i: nat ensures i in MatchIndices(history, name) <==> i in after {
      if i < n {
        assert history[..n][i] == history[i];
      }
    }
  }

  /** There is one filtered result per matching history record. */
  lemma {:induction false} MatchingCount(history: seq<Record>, name: string)
    ensures |Matching(history, name)| == |MatchIndices(history, name)|
  {
    if history != [] {
      var n := |history| - 1;
      MatchingCount(history[..n], name);
      MatchIndicesSnoc(history, name);
    }
  }

  /** The last filtered result is the last matching record of the history. */
  lemma {:induction false} MatchingLast(history: seq<Record>, name: string, i: nat)
    requires i < |history| && TestNameIs(history[i], name)
    requires forall j :: i < j < |history| ==> !TestNameIs(history[j], name)
    ensures var m := Matching(history, name); m != [] && m[|m| - 1] == history[i]
  {
    if i < |history| - 1 {
      MatchingLast(history[..|history| - 1], name, i);
    }
  }

  /** Nothing is filtered out only when no record matches. */
  lemma MatchingNone(history: seq<Record>, name: string)
    ensures Matching(history, name) == [] <==> forall i :: 0 <= i < |history| ==> !TestNameIs(history[i], name)
  {
    MatchingCount(history, name);
    if i :| 0 <= i < |history| && TestNameIs(history[i], name) {
      assert i in MatchIndices(history, name);
    }
  }

  /** What `aggregate_test_results` needs of the last record it is given. */
  predicate Reportable(r: Record) {
    "timestamp" in Keys(r) && JobsTyped(r)
  }

  /** The summary entry for a non-empty list of results of one test. */
  function AggregateOf(results: seq<Record>): Aggregate
    requires results != [] && Reportable(results[|results| - 1])
  {
    var latest := results[|results| - 1];
    Aggregate(Get(latest, "timestamp").value, |results|, MetricsOf(latest))
  }

  /**
    `aggregate_test_results`: nothing (the empty dict) for no results;
    otherwise the last result's timestamp, the number of results and the last
    result's key metrics.
   */
  method AggregateTestResults(testResults: seq<Record>) returns (agg: Option<Aggregate>)
    requires testResults != [] ==> Reportable(testResults[|testResults| - 1])
    ensures agg.None? <==> testResults == []
    ensures agg.Some? ==>
      var latest := testResults[|testResults| - 1];
      && Get(latest, "timestamp") == Some(agg.value.lastRun)
      && agg.value.runsCount == |testResults|
      && agg.value.latestMetrics == MetricsOf(latest)
  {
    if testResults == [] {
      return None;
    }
    var latestResult := testResults[|testResults| - 1];
    var latestMetrics := ExtractKeyMetrics(latestResult);
    agg := Some(Aggregate(Get(latestResult, "timestamp").value, |testResults|, latestMetrics));
  }

  /** Every history record can be summarized. */
  predicate AllReportable(history: seq<Record>) {
    forall r :: r in history ==> Reportable(r)
  }

  /** The last result of a test in a summarizable history can be summarized. */
  lemma MatchingReportable(history: seq<Record>, name: string)
    requires AllReportable(history)
    ensures var m := Matching(history, name); m != [] ==> Reportable(m[|m| - 1])
  {
  }

  /** The names of the configured tests, in configuration order. */
  function ConfigNames(configs: seq<TestConfig>): (names: seq<string>)
    ensures |names| == |configs|
    ensures forall i :: 0 <= i < |configs| ==> names[i] == configs[i].name
  {
    seq(|configs|, i requires 0 <= i < |configs| => configs[i].name)
  }

  /** `report["summary"]`: for each configured test in order, an entry when some result matches. */
  function SummaryOf(configs: seq<TestConfig>, history: seq<Record>): Dict<string, Aggregate>
    requires AllReportable(history)
  {
    if configs == [] then []
    else
      var name := configs[|configs| - 1].name;
      var prev := SummaryOf(configs[..|configs| - 1], history);
      var m := Matching(history, name);
      if m == [] then prev
      else
        Put(prev, name, AggregateOf(m))
  }

  /** One more configured test adds its entry, when some result matches it. */
  lemma SummarySnoc(configs: seq<TestConfig>, history: seq<Record>, i: nat)
    requires AllReportable(history) && i < |configs|
    ensures var m := Matching(history, configs[i].name);
      SummaryOf(configs[..i + 1], history) ==
        if m == [] then SummaryOf(configs[..i], history)
        else Put(SummaryOf(configs[..i], history), configs[i].name, AggregateOf(m))
  {
    assert configs[..i + 1][..i] == configs[..i];
  }

  /** What `generate_report` produces: nothing for an empty history, else the report. */
  function ReportOf(configs: seq<TestConfig>, history: seq<Record>, now: string): (r: Option<Report>)
    requires AllReportable(history)
    ensures r.None? <==> history == []
    ensures r.Some? ==> r.value.totalTests == |history| && r.value.generatedAt == now
    ensures r.Some? ==> r.value.summary == SummaryOf(configs, history)
  {
    if history == [] then None else Some(Report(now, |history|, SummaryOf(configs, history)))
  }

  /** A test has a summary entry iff it is configured and some result of it is in the history. */
  lemma {:induction false} SummaryLookup(configs: seq<TestConfig>, history: seq<Record>, name: string)
    requires AllReportable(history)
    ensures Get(SummaryOf(configs, history), name).Some? <==>
      name in ConfigNames(configs) && Matching(history, name) != []
    ensures Get(SummaryOf(configs, history), name).Some? ==>
      var m := Matching(history, name);
      && m != [] && Reportable(m[|m| - 1])
      && Get(SummaryOf(configs, history), name).value == AggregateOf(m)
  {

    if configs != [] {
      var init := configs[..|configs| - 1];
      var last := configs[|configs| - 1].name;
      SummaryLookup(init, history, name);
      assert ConfigNames(configs) == ConfigNames(init) + [last];
      var m := Matching(history, last);
      if m != [] {
        GetPut(SummaryOf(init, history), last, AggregateOf(m), name);
      }
    }
  }

  /**
    The summary entry of a configured test whose last result in the history
    is record `i`: taken from that record, with the number of matching records
    as the run count.
   */
  lemma SummaryEntry(configs: seq<TestConfig>, history: seq<Record>, name: string, i: nat)
    requires AllReportable(history)
    requires name in ConfigNames(configs)
    requires i < |history| && TestNameIs(history[i], name)
    requires forall j :: i < j < |history| ==> !TestNameIs(history[j], name)
    ensures var e := Get(SummaryOf(configs, history), name);
      && e.Some?
      && Some(e.value.lastRun) == Get(history[i], "timestamp")
      && e.value.runsCount == |MatchIndices(history, name)|
      && (assert history[i] in history; e.value.latestMetrics == MetricsOf(history[i]))
  {
    var m := Matching(history, name);
    var r := history[i];
    assert r in history;
    var agg := Aggregate(Get(r, "timestamp").value, |MatchIndices(history, name)|, MetricsOf(r));
    assert AggregateOf(m) == agg by {
      MatchingLast(history, name, i);
      MatchingCount(history, name);
    }
    SummaryLookup(configs, history, name);
  }

  /** A test with no result in the history has no summary entry. */
  lemma SummaryNoEntry(configs: seq<TestConfig>, history: seq<Record>, name: string)
    requires AllReportable(history)
    requires forall j :: 0 <= j < |history| ==> !TestNameIs(history[j], name)
    ensures Get(SummaryOf(configs, history), name).None?
  {
    SummaryLookup(configs, history, name);
    MatchingNone(history, name);
  }
}
