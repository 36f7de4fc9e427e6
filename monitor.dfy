/**
  The `FIOMonitor` class of fio_monitor.py: the configured tests, the
  in-memory history of normalized results, and the operations that run a
  test, save its result, build the report and drive the monitoring cycles.
  The child process, the clock and the files are not modelled: how each fio
  run ended and every `datetime.now()` reading are parameters.
 */
module Monitor {
  import opened Wrappers
  import opened OrderedDict
  import opened FioOutput
  import opened Normalizer
  import opened Invoker
  import opened Report

  /** A prefix of a prefix is a prefix of the whole. */
  lemma PrefixOfPrefix<T>(s: seq<T>, n: nat, m: nat)
    requires m <= n <= |s|
    ensures s[..n][..m] == s[..m]
  {
  }

  /** Appending keeps every prefix a prefix. */
  lemma PrefixOfAppend<T>(a: seq<T>, b: seq<T>, x: seq<T>)
    requires a <= b
    ensures a <= b + x
  {
    assert (b + x)[..|a|] == b[..|a|];
  }

  /** The test list used when no configuration file is given. */
  function DefaultConfigs(): seq<TestConfig> {
    [TestConfig("pgsql_8k_60r_40w_QD32",
       [("ioengine", PStr("libaio")),
        ("direct", PInt(1)),
        ("rw", PStr("randrw")),
        ("rwmixread", PInt(60)),
        ("bs", PStr("8k")),
        ("iodepth", PInt(32)),
        ("size", PStr("1G")),
        ("runtime", PInt(120)),
        ("filename", PStr("/dev/vdb")),
        ("output-format", PStr("json"))])]
  }

  /** How one test run went, as the environment answers it: fio's ending, and the clock when it is normalized. */
  datatype RunInput = RunInput(outcome: Outcome, now: string)

  /** One cycle's answers: one run per configured test, in order, and the clock when the report is made. */
  datatype CycleInput = CycleInput(runs: seq<RunInput>, reportTime: string)

  /** What `save_results` appends to the history: nothing for `None` or an empty dict. */
  function Saved(results: Option<Record>): seq<Record> {
    if results.Some? && results.value != [] then [results.value] else []
  }

  /** What saving each of a list of results, in order, appends to the history. */
  function SavedAll(results: seq<Option<Record>>): seq<Record> {
    if results == [] then [] else SavedAll(results[..|results| - 1]) + Saved(results[|results| - 1])
  }

  /** Saving one more result appends what that result saves. */
  lemma SavedAllSnoc(start: seq<Record>, results: seq<Option<Record>>, j: nat)
    requires j < |results|
    ensures start + SavedAll(results[..j + 1]) == (start + SavedAll(results[..j])) + Saved(results[j])
  {
    PrefixOfPrefix(results, j + 1, j);
    assert start + (SavedAll(results[..j]) + Saved(results[j])) == (start + SavedAll(results[..j])) + Saved(results[j]);
  }

  /** The result of each configured test of one pass, in configuration order. */
  function RunOutcomes(configs: seq<TestConfig>, runs: seq<RunInput>): (results: seq<Option<Record>>)
    requires |runs| == |configs|
    ensures |results| == |configs|
  {
    seq(|configs|, k requires 0 <= k < |configs| => TestRun(configs[k], runs[k].outcome, runs[k].now))
  }

  /** The records one pass over the configured tests appends, in configuration order. */
  function RunResults(configs: seq<TestConfig>, runs: seq<RunInput>): seq<Record>
    requires |runs| == |configs|
  {
    SavedAll(RunOutcomes(configs, runs))
  }

  /** Every cycle answers one run per configured test. */
  predicate CyclesFit(configs: seq<TestConfig>, inputs: seq<CycleInput>) {
    forall c :: 0 <= c < |inputs| ==> |inputs[c].runs| == |configs|
  }

  /** The records a sequence of cycles appends, cycle after cycle. */
  function CyclesResults(configs: seq<TestConfig>, inputs: seq<CycleInput>): seq<Record>
    requires CyclesFit(configs, inputs)
  {
    if inputs == [] then []
    else
      var n := |inputs| - 1;
      CyclesResults(configs, inputs[..n]) + RunResults(configs, inputs[n].runs)
  }

  /** Every record of the history is one the normalizer produces. */
  predicate AllWellFormed(history: seq<Record>) {
    forall r :: r in history ==> WellFormed(r)
  }

  /** Saving results that are all normalized records appends only normalized records. */
  lemma {:induction false} SavedAllWellFormed(results: seq<Option<Record>>)
    requires forall k :: 0 <= k < |results| && results[k].Some? ==> WellFormed(results[k].value)
    ensures AllWellFormed(SavedAll(results))
  {
    if results != [] {
      SavedAllWellFormed(results[..|results| - 1]);
    }
  }

  /** A pass over the configured tests appends only normalized records. */
  lemma RunResultsWellFormed(configs: seq<TestConfig>, runs: seq<RunInput>)
    requires |runs| == |configs|
    ensures AllWellFormed(RunResults(configs, runs))
  {
    var results := RunOutcomes(configs, runs);
    forall k | 0 <= k < |results| && results[k].Some? ensures WellFormed(results[k].value) {
      NormalizedWellFormed(configs[k].name, runs[k].outcome.stdout.doc, runs[k].now);
    }
    SavedAllWellFormed(results);
  }

  /** Cycles append only normalized records. */
  lemma {:induction false} CyclesResultsWellFormed(configs: seq<TestConfig>, inputs: seq<CycleInput>)
    requires CyclesFit(configs, inputs)
    ensures AllWellFormed(CyclesResults(configs, inputs))
  {
    if inputs != [] {
      var n := |inputs| - 1;
      CyclesResultsWellFormed(configs, inputs[..n]);
      RunResultsWellFormed(configs, inputs[n].runs);
    }
  }

  /** A history of normalized records can be summarized. */
  lemma WellFormedReportable(history: seq<Record>)
    requires AllWellFormed(history)
    ensures AllReportable(history)
  {
  }

  /** The report made at the end of the last of `inputs`, over the history as it then stands. */
  function CycleReport(configs: seq<TestConfig>, start: seq<Record>, inputs: seq<CycleInput>): Option<Report>
    requires AllWellFormed(start) && CyclesFit(configs, inputs) && inputs != []
  {
    var history := start + CyclesResults(configs, inputs);
    CyclesResultsWellFormed(configs, inputs);
    WellFormedReportable(history);
    ReportOf(configs, history, inputs[|inputs| - 1].reportTime)
  }

  /** The reports made at the end of each cycle, starting from history `start`. */
  function CycleReports(configs: seq<TestConfig>, start: seq<Record>, inputs: seq<CycleInput>): (reports: seq<Option<Report>>)
    requires AllWellFormed(start) && CyclesFit(configs, inputs)
    ensures |reports| == |inputs|
  {
    if inputs == [] then []
    else CycleReports(configs, start, inputs[..|inputs| - 1]) + [CycleReport(configs, start, inputs)]
  }

  class FioMonitor {
    const configs: seq<TestConfig>
    var history: seq<Record>

    /** The history holds only records the normalizer produces. */
    ghost predicate Valid()
      reads this
    {
      AllWellFormed(history)
    }

    constructor (configs: seq<TestConfig>)
      ensures Valid()
      ensures this.configs == configs && history == []
    {
      this.configs := configs;
      history := [];
    }

    /**
      `run_fio_test`: the command line and timeout handed to the child
      process, and the normalized result or `None`.
     */
    method RunFioTest(config: TestConfig, outcome: Outcome, now: string)
      returns (cmd: seq<string>, timeout: Option<int>, results: Option<Record>)
      ensures cmd == Command(config)
      ensures timeout == TimeoutOf(config.parameters)
      ensures results == TestRun(config, outcome, now)
      ensures results.Some? ==> WellFormed(results.value)
    {
      cmd := BuildCommand(config);
      timeout := TimeoutOf(config.parameters);
      results := None;
      if timeout.None? {
        return;
      }
      match outcome
      case Exited(returnCode, stdout) =>
        if returnCode == 0 && stdout.Json? {
          var processed := ProcessFioResults(config.name, stdout.doc, now);
          NormalizedWellFormed(config.name, stdout.doc, now);
          results := Some(processed);
        }
      case TimedOut =>
      case Raised =>
    }

    /** `save_results`: append a non-empty result at the end of the history. */
    method SaveResults(results: Option<Record>)
      modifies this
      ensures history == old(history) + Saved(results)
      ensures old(Valid()) && (results.Some? ==> WellFormed(results.value)) ==> Valid()
    {
      if results.None? || results.value == [] {
        return;
      }
      history := history + [results.value];
    }

    /** `generate_report`: nothing for an empty history, else the report over the configured tests. */
    method GenerateReport(now: string) returns (report: Option<Report>)
      requires Valid()
      ensures AllReportable(history)
      ensures report == ReportOf(configs, history, now)
    {
      WellFormedReportable(history);
      if history == [] {
        return None;
      }
      var summary: Dict<string, Aggregate> := [];
      var i := 0;
      while i < |configs|
        invariant 0 <= i <= |configs|
        invariant summary == SummaryOf(configs[..i], history)
      {
        summary := SummarizeTest(i, summary);
        i := i + 1;
      }
      assert configs[..i] == configs;
      report := Some(Report(now, |history|, summary));
    }

    /** The body of that loop: the entry of the `i`-th configured test, when some result matches it. */
    method SummarizeTest(i: nat, summary: Dict<string, Aggregate>) returns (next: Dict<string, Aggregate>)
      requires AllReportable(history) && i < |configs|
      requires summary == SummaryOf(configs[..i], history)
      ensures next == SummaryOf(configs[..i + 1], history)
    {
      var testName := configs[i].name;
      var testResults := Matching(history, testName);
      SummarySnoc(configs, history, i);
      MatchingReportable(history, testName);
      next := summary;
      if testResults != [] {
        var agg := AggregateTestResults(testResults);
        assert agg.value == AggregateOf(testResults);
        next := Put(summary, testName, agg.value);
      }
    }

    /** The body of that loop: run one test and save its result. */
    method RunAndSave(config: TestConfig, run: RunInput) returns (result: Option<Record>)
      requires Valid()
      modifies this
      ensures Valid()
      ensures result == TestRun(config, run.outcome, run.now)
      ensures history == old(history) + Saved(result)
    {
      var _, _, results := RunFioTest(config, run.outcome, run.now);
      if results.Some? && results.value != [] {
        SaveResults(results);
      }
      result := results;
    }

    /**
      The loop `for config in self.configs` that runs each configured test
      once, in order, and saves each result. It is one cycle of
      `run_monitoring_cycle`.
     */
    method RunConfiguredTests(runs: seq<RunInput>)
      requires Valid()
      requires |runs| == |configs|
      modifies this
      ensures Valid()
      ensures history == old(history) + RunResults(configs, runs)
    {
      var j := 0;
      ghost var outcomes := RunOutcomes(configs, runs);
      while j < |configs|
        invariant 0 <= j <= |configs|
        invariant Valid()
        invariant history == old(history) + SavedAll(outcomes[..j])
      {
        var result := RunAndSave(configs[j], runs[j]);
        SavedAllSnoc(old(history), outcomes, j);
        j := j + 1;
      }
      assert outcomes[..j] == outcomes;
    }

    /**
      `run_monitoring_cycle` with a cycle count: `cycles` passes (none when
      `cycles` is not positive), each running every configured test and then
      making a report. `reports[c]` is the report made at the end of cycle `c`.
     */
    method RunMonitoringCycle(cycles: int, inputs: seq<CycleInput>)
      returns (cycleCount: int, reports: seq<Option<Report>>)
      requires Valid()
      requires cycles <= |inputs| && CyclesFit(configs, inputs)
      modifies this
      ensures Valid()
      ensures cycleCount == if cycles < 0 then 0 else cycles
      ensures history == old(history) + CyclesResults(configs, inputs[..cycleCount])
      ensures reports == CycleReports(configs, old(history), inputs[..cycleCount])
    {
      cycleCount := 0;
      reports := [];
      while cycles > cycleCount
        invariant 0 <= cycleCount <= if cycles < 0 then 0 else cycles
        invariant Valid()
        invariant history == old(history) + CyclesResults(configs, inputs[..cycleCount])
        invariant reports == CycleReports(configs, old(history), inputs[..cycleCount])
      {
        var report := RunCycle(old(history), inputs, cycleCount);
        PrefixOfPrefix(inputs, cycleCount + 1, cycleCount);
        reports := reports + [report];
        cycleCount := cycleCount + 1;
      }
    }

    /** Cycle `c` of `inputs`: run every configured test, then make a report. */
    method RunCycle(ghost start: seq<Record>, inputs: seq<CycleInput>, c: nat) returns (report: Option<Report>)
      requires Valid() && AllWellFormed(start)
      requires CyclesFit(configs, inputs) && c < |inputs|
      requires CyclesFit(configs, inputs[..c]) && history == start + CyclesResults(configs, inputs[..c])
      modifies this
      ensures Valid()
      ensures CyclesFit(configs, inputs[..c + 1]) && history == start + CyclesResults(configs, inputs[..c + 1])
      ensures report == CycleReport(configs, start, inputs[..c + 1])
    {
      RunConfiguredTests(inputs[c].runs);
      CyclesSnoc(configs, start, inputs, c);
      report := GenerateReport(inputs[c].reportTime);
      CycleReportIs(configs, start, inputs, c);
    }
  }

  /** One more cycle appends its pass and its report. */
  lemma CyclesSnoc(configs: seq<TestConfig>, start: seq<Record>, inputs: seq<CycleInput>, c: nat)
    requires AllWellFormed(start) && CyclesFit(configs, inputs) && c < |inputs|
    ensures CyclesFit(configs, inputs[..c]) && CyclesFit(configs, inputs[..c + 1])
    ensures start + CyclesResults(configs, inputs[..c + 1]) == (start + CyclesResults(configs, inputs[..c])) + RunResults(configs, inputs[c].runs)
  {
    PrefixOfPrefix(inputs, c + 1, c);
    assert start + CyclesResults(configs, inputs[..c + 1]) == start + (CyclesResults(configs, inputs[..c]) + RunResults(configs, inputs[c].runs));
  }

  /** The report of a cycle is the report over the history as it stands after that cycle. */
  lemma CycleReportIs(configs: seq<TestConfig>, start: seq<Record>, inputs: seq<CycleInput>, c: nat)
    requires AllWellFormed(start) && CyclesFit(configs, inputs) && c < |inputs|
    ensures CyclesFit(configs, inputs[..c + 1])
    ensures AllReportable(start + CyclesResults(configs, inputs[..c + 1]))
    ensures CycleReport(configs, start, inputs[..c + 1]) ==
      ReportOf(configs, start + CyclesResults(configs, inputs[..c + 1]), inputs[c].reportTime)
  {
    CyclesResultsWellFormed(configs, inputs[..c + 1]);
  }

  /** Report `c` of a run of cycles is the report made at the end of cycle `c`. */
  lemma {:induction false} CycleReportsAt(configs: seq<TestConfig>, start: seq<Record>, inputs: seq<CycleInput>, c: nat)
    requires AllWellFormed(start) && CyclesFit(configs, inputs) && c < |inputs|
    ensures CyclesFit(configs, inputs[..c + 1])
    ensures CycleReports(configs, start, inputs)[c] == CycleReport(configs, start, inputs[..c + 1])
  {
    var n := |inputs| - 1;
    if c < n {
      PrefixOfPrefix(inputs, n, c + 1);
      CycleReportsAt(configs, start, inputs[..n], c);
    } else {
      assert inputs[..c + 1] == inputs;
    }
  }

  /** Cycles only append: the history after some cycles is a prefix of the history after more. */
  lemma {:induction false} CyclesResultsPrefix(configs: seq<TestConfig>, inputs: seq<CycleInput>, c: nat)
    requires CyclesFit(configs, inputs) && c <= |inputs|
    ensures CyclesFit(configs, inputs[..c])
    ensures CyclesResults(configs, inputs[..c]) <= CyclesResults(configs, inputs)
  {
    if c < |inputs| {
      var n := |inputs| - 1;
      PrefixOfPrefix(inputs, n, c);
      CyclesResultsPrefix(configs, inputs[..n], c);
      PrefixOfAppend(CyclesResults(configs, inputs[..c]), CyclesResults(configs, inputs[..n]), RunResults(configs, inputs[n].runs));
    } else {
      assert inputs[..c] == inputs;
    }
  }

  /** The default test's `runtime` of 120 seconds gives a timeout of 150 seconds. */
  lemma DefaultTimeout()
    ensures TimeoutOf(DefaultConfigs()[0].parameters) == Some(150)
  {
    var params := DefaultConfigs()[0].parameters;
    assert DistinctKeys(params);
    GetDistinct(params, 7);
  }
}
