/**
  The flattening step of `create_timeseries_analysis` in fio_analyzer.py:
  every job entry of every saved record becomes one row of the time-series
  table, in history order and, within a record, in key order. Reading the
  history file, the CSV export, the plots and the statistics are not
  modelled; the history is a parameter and the table is the result.
 */
module Analyzer {
  import opened Wrappers
  import opened OrderedDict
  import opened Normalizer
  import opened Report

  /** One row of the time-series table. */
  datatype Row = Row(
    timestamp: string,
    testName: Value,
    jobName: string,
    readIops: real,
    writeIops: real,
    readLatencyP95Us: real,
    writeLatencyP95Us: real,
    readBwKbps: real,
    writeBwKbps: real)

  /** What the analysis ends with: nothing to do, an exception on a malformed record, or the table. */
  datatype Analysis = NoHistory | Failed | Table(rows: seq<Row>)

  /**
    A record the loop gets through: its timestamp is text (anything else makes
    `fromisoformat` raise), it has a `test_name`, and every other entry is a job.
   */
  predicate Analyzable(r: Record) {
    && Get(r, "timestamp").Some? && Get(r, "timestamp").value.Text?
    && Get(r, "test_name").Some?
    && JobsTyped(r)
  }

  predicate AllAnalyzable(history: seq<Record>) {
    forall i :: 0 <= i < |history| ==> Analyzable(history[i])
  }

  /** The row appended for one job entry. */
  function RowOf(timestamp: string, testName: Value, jobName: string, job: JobResult): Row {
    Row(timestamp, testName, jobName,
        job.read.iops, job.write.iops,
        P95Us(job.read.percentiles), P95Us(job.write.percentiles),
        job.read.bwKbps, job.write.bwKbps)
  }

  /** The rows of one record: one per entry whose key is not a metadata key, in key order. */
  function RecordRows(r: Record, timestamp: string, testName: Value): seq<Row>
    requires JobsTyped(r)
  {
    if r == [] then []
    else
      var last := r[|r| - 1];
      RecordRows(r[..|r| - 1], timestamp, testName) +
        (if IsMetadataKey(last.0) then [] else [RowOf(timestamp, testName, last.0, last.1.job)])
  }

  /** The rows of a whole history, record after record. */
  function Flatten(history: seq<Record>): seq<Row>
    requires AllAnalyzable(history)
  {
    if history == [] then []
    else
      var r := history[|history| - 1];
      Flatten(history[..|history| - 1]) +
        RecordRows(r, Get(r, "timestamp").value.text, Get(r, "test_name").value)
  }

  /** The flattening loop of `create_timeseries_analysis`: history in, rows out. */
  function AnalysisOf(history: seq<Record>): (a: Analysis)
    ensures a.NoHistory? <==> history == []
    ensures a.Failed? <==> history != [] && exists i :: 0 <= i < |history| && !Analyzable(history[i])
    ensures a.Table? ==> AllAnalyzable(history) && a.rows == Flatten(history)
  {
    if history == [] then NoHistory
    else if !AllAnalyzable(history) then Failed
    else Table(Flatten(history))
  }

  /** The number of job entries in a history: the sum of each record's job-key count. */
  function JobCount(history: seq<Record>): nat {
    if history == [] then 0
    else JobCount(history[..|history| - 1]) + |JobKeys(history[|history| - 1])|
  }

  /**
    The nested loop of `create_timeseries_analysis`: an empty history ends
    it at once; otherwise each record's timestamp and test name are read and
    one row is appended per job entry.
   */
  method CreateTimeseriesAnalysis(history: seq<Record>) returns (analysis: Analysis)
    ensures analysis == AnalysisOf(history)
  {
    if history == [] {
      return NoHistory;
    }
    var data: seq<Row> := [];
    var i := 0;
    while i < |history|
      invariant 0 <= i <= |history|
      invariant AllAnalyzable(history[..i])
      invariant data == Flatten(history[..i])
    {
      var result := history[i];
      var timestamp := Get(result, "timestamp");
      if timestamp.None? || !timestamp.value.Text? {
        assert !Analyzable(history[i]);
        return Failed;
      }
      var testName := Get(result, "test_name");
      if testName.None? {
        assert !Analyzable(history[i]);
        return Failed;
      }
      var extended := AppendJobRows(data, result, timestamp.value.text, testName.value);
      if extended.None? {
        assert !Analyzable(history[i]);
        return Failed;
      }
      data := extended.value;
      FlattenStep(history, i);
      i := i + 1;
    }
    assert history[..i] == history;
    return Table(data);
  }

  /**
    The inner loop of `create_timeseries_analysis` over one record: appends
    a row per job entry to `start`, or stops at the first entry that is
    neither a metadata key nor a job (where the source raises).
   */
  method AppendJobRows(start: seq<Row>, result: Record, timestamp: string, testName: Value)
    returns (data: Option<seq<Row>>)
    ensures data.None? <==> !JobsTyped(result)
    ensures data.Some? ==> data.value == start + RecordRows(result, timestamp, testName)
  {
    var rows := start;
    var j := 0;
    while j < |result|
      invariant 0 <= j <= |result|
      invariant JobsTyped(result[..j])
      invariant rows == start + RecordRows(result[..j], timestamp, testName)
    {
      var (jobName, jobData) := result[j];
      if !IsMetadataKey(jobName) && !jobData.JobEntry? {
        return None;
      }
      RowsStep(result, j, timestamp, testName);
      ghost var before := RecordRows(result[..j], timestamp, testName);
      if !IsMetadataKey(jobName) {
        var row := RowOf(timestamp, testName, jobName, jobData.job);
        AppendAssoc(start, before, [row]);
        rows := rows + [row];
      }
      j := j + 1;
    }
    assert result[..j] == result;
    return Some(rows);
  }

  lemma AppendAssoc<T>(a: seq<T>, b: seq<T>, c: seq<T>)
    ensures (a + b) + c == a + (b + c)
  {
  }

  /** One more entry of a record adds its row, unless its key is a metadata key. */
  lemma RowsStep(r: Record, j: nat, timestamp: string, testName: Value)
    requires j < |r| && JobsTyped(r[..j])
    requires !IsMetadataKey(r[j].0) ==> r[j].1.JobEntry?
    ensures JobsTyped(r[..j + 1])
    ensures RecordRows(r[..j + 1], timestamp, testName) ==
      RecordRows(r[..j], timestamp, testName) +
        (if IsMetadataKey(r[j].0) then [] else [RowOf(timestamp, testName, r[j].0, r[j].1.job)])
  {
    assert r[..j + 1][..j] == r[..j];
    assert forall k :: 0 <= k < j ==> r[..j + 1][k] == r[..j][k];
  }

  /** A prefix of analyzable records followed by one more analyzable record. */
  lemma AnalyzableSnoc(history: seq<Record>, i: nat)
    requires i < |history| && AllAnalyzable(history[..i]) && Analyzable(history[i])
    ensures AllAnalyzable(history[..i + 1])
  {
    var h := history[..i + 1];
    forall k | 0 <= k < |h|
      ensures Analyzable(h[k])
    {
      if k < i {
        assert h[k] == history[..i][k];
      }
    }
  }

  /** One more analyzable record appends its rows. */
  lemma FlattenStep(history: seq<Record>, i: nat)
    requires i < |history| && AllAnalyzable(history[..i]) && Analyzable(history[i])
    ensures AllAnalyzable(history[..i + 1])
    ensures Flatten(history[..i + 1]) ==
      Flatten(history[..i]) +
        RecordRows(history[i], Get(history[i], "timestamp").value.text, Get(history[i], "test_name").value)
  {
    AnalyzableSnoc(history, i);
    assert history[..i + 1][..i] == history[..i];
  }

  /**
    A record yields one row per job key, in key order, each carrying the
    record's timestamp and test name.
   */
  lemma {:induction false} RecordRowsShape(r: Record, timestamp: string, testName: Value)
    requires JobsTyped(r)
    ensures |RecordRows(r, timestamp, testName)| == |JobKeys(r)|
    ensures forall k :: 0 <= k < |JobKeys(r)| ==>
      var row := RecordRows(r, timestamp, testName)[k];
      row.jobName == JobKeys(r)[k] && row.timestamp == timestamp && row.testName == testName
  {
    if r != [] {
      JobsTypedPrefix(r, |r| - 1);
      RecordRowsShape(r[..|r| - 1], timestamp, testName);
    }
  }

  /** Every row comes from a job entry of its record. */
  lemma {:induction false} RecordRowsSource(r: Record, timestamp: string, testName: Value, k: nat)
    requires JobsTyped(r) && k < |RecordRows(r, timestamp, testName)|
    ensures exists i :: (0 <= i < |r| && !IsMetadataKey(r[i].0) && r[i].1.JobEntry? &&
      RecordRows(r, timestamp, testName)[k] == RowOf(timestamp, testName, r[i].0, r[i].1.job))
  {
    var n := |r| - 1;
    JobsTypedPrefix(r, n);
    var init := RecordRows(r[..n], timestamp, testName);
    if k < |init| {
      RecordRowsSource(r[..n], timestamp, testName, k);
      var i :| 0 <= i < n && !IsMetadataKey(r[..n][i].0) && r[..n][i].1.JobEntry? &&
        init[k] == RowOf(timestamp, testName, r[..n][i].0, r[..n][i].1.job);
      assert r[..n][i] == r[i];
    } else {
      assert RecordRows(r, timestamp, testName)[k] == RowOf(timestamp, testName, r[n].0, r[n].1.job);
    }
  }

  /**
    The metrics in a row are the ones `extract_key_metrics` gives for the
    same record and job.
   */
  lemma RowMatchesKeyMetrics(r: Record, timestamp: string, testName: Value, k: nat)
    requires JobsTyped(r) && DistinctKeys(r) && k < |RecordRows(r, timestamp, testName)|
    ensures var row := RecordRows(r, timestamp, testName)[k];
      Get(MetricsOf(r), row.jobName) ==
        Some(KeyMetrics(row.readIops, row.writeIops, row.readLatencyP95Us, row.writeLatencyP95Us,
                        row.readBwKbps, row.writeBwKbps))
  {
    var row := RecordRows(r, timestamp, testName)[k];
    RecordRowsSource(r, timestamp, testName, k);
    var i :| 0 <= i < |r| && !IsMetadataKey(r[i].0) && r[i].1.JobEntry? &&
      row == RowOf(timestamp, testName, r[i].0, r[i].1.job);
    var job := r[i].1.job;
    assert Get(r, r[i].0) == Some(JobEntry(job)) by {
      GetDistinct(r, i);
    }
    MetricsLookup(r, r[i].0, job);
    assert KeyMetricsOf(job) == KeyMetrics(row.readIops, row.writeIops, row.readLatencyP95Us,
      row.writeLatencyP95Us, row.readBwKbps, row.writeBwKbps);
  }

  /** Rows keep history order: the rows of two histories in a row are the rows of each, in turn. */
  lemma {:induction false} FlattenAppend(h1: seq<Record>, h2: seq<Record>)
    requires AllAnalyzable(h1) && AllAnalyzable(h2)
    ensures AllAnalyzable(h1 + h2)
    ensures Flatten(h1 + h2) == Flatten(h1) + Flatten(h2)
  {
    if h2 != [] {
      var n := |h2| - 1;
      assert (h1 + h2)[..|h1 + h2| - 1] == h1 + h2[..n];
      FlattenAppend(h1, h2[..n]);
    } else {
      assert h1 + h2 == h1;
    }
  }

  /** `row` carries the timestamp and test name of `r` and one of its job keys. */
  predicate RowFrom(row: Row, r: Record) {
    && Get(r, "timestamp").Some? && Get(r, "timestamp").value.Text?
    && row.timestamp == Get(r, "timestamp").value.text
    && Get(r, "test_name").Some? && row.testName == Get(r, "test_name").value
    && row.jobName in JobKeys(r)
  }

  /** Every row of the table comes from one record of the history. */
  lemma {:induction false} FlattenSource(history: seq<Record>, k: nat)
    requires AllAnalyzable(history) && k < |Flatten(history)|
    ensures exists i :: 0 <= i < |history| && RowFrom(Flatten(history)[k], history[i])
  {
    var n := |history| - 1;
    var init := history[..n];
    var r := history[n];
    assert AllAnalyzable(init) by {
      forall i | 0 <= i < |init| ensures Analyzable(init[i]) {
        assert init[i] == history[i];
      }
    }
    var ts := Get(r, "timestamp").value.text;
    var tn := Get(r, "test_name").value;
    var rows := Flatten(history);
    assert rows == Flatten(init) + RecordRows(r, ts, tn);
    if k < |Flatten(init)| {
      FlattenSource(init, k);
      var i :| 0 <= i < |init| && RowFrom(Flatten(init)[k], init[i]);
      assert RowFrom(rows[k], history[i]) by {
        assert init[i] == history[i];
      }
    } else {
      var m := k - |Flatten(init)|;
      RecordRowsShape(r, ts, tn);
      assert rows[k] == RecordRows(r, ts, tn)[m];
      assert JobKeys(r)[m] in JobKeys(r);
      assert RowFrom(rows[k], history[n]);
    }
  }

  /** There is one row per job entry of the history. */
  lemma {:induction false} FlattenCount(history: seq<Record>)
    requires AllAnalyzable(history)
    ensures |Flatten(history)| == JobCount(history)
  {
    if history != [] {
      var r := history[|history| - 1];
      FlattenCount(history[..|history| - 1]);
      RecordRowsShape(r, Get(r, "timestamp").value.text, Get(r, "test_name").value);
    }
  }
}
