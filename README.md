# fio monitor: a verified model of its data path

This project models the data-reshaping core of the fio storage-performance monitor of
vm-storage-perf. The modelled files are `fio-collector/fio_monitor.py` (class `FIOMonitor`)
and `fio_analyzer.py` (class `FIOAnalyzer`). The model covers five parts:
- how a test's fio command line and timeout are built;
- how the way the fio child process ended decides whether a result exists;
- how fio's JSON document is normalized into an insertion-ordered record;
- how records are appended to the in-memory history and summarized into a report, once per monitoring cycle;
- how the analyzer flattens the history into time-series rows.

Modules, one per file:

- `Wrappers` (wrappers.dfy): `Option`.
- `OrderedDict` (ordered_dict.dfy): a Python `dict` as a sequence of (key, value) pairs in
  insertion order. `Put` overwrites an existing key where it stands and appends a new key at the
  end. `Get` is `dict.get`.
- `FioOutput` (fio_output.dfy): the parts of fio's JSON that are read. Every `.get(key, default)`
  field is an `Option`. How the child process ended is the `Outcome` type:
  - the process exited with a return code, and its output either parsed as JSON or did not;
  - the timeout expired;
  - some other exception was raised.
- `Normalizer` (normalizer.dfy): `process_fio_results` and `convert_latency_to_us`. Metric values
  are `real`, so `/ 1000` is exact division.
- `Invoker` (invoker.dfy): the command line, the timeout and the result of `run_fio_test`.
- `Report` (report.dfy): `extract_key_metrics`, `aggregate_test_results` and the summary of
  `generate_report`.
- `Monitor` (monitor.dfy): class `FioMonitor`. It has the configured tests, a `history` field and
  methods for running a test, saving a result, making the report and running the monitoring cycles.
  Each method is proved against a specification function of the inputs and the old history.
- `Analyzer` (analyzer.dfy): the flattening loop of `create_timeseries_analysis` (history in, rows out); the DataFrame and plots built from the rows are not modelled.

The environment is a set of parameters:
- each run's `Outcome`;
- every `datetime.now()` reading, as an opaque string;
- for the monitoring loop, one `CycleInput` per cycle. A `CycleInput` holds one run per
  configured test and the clock reading of the report.

## Model

| member | source | states |
|---|---|---|
| Normalizer.ConvertLatencyToUs | fio-collector/fio_monitor.py:162-168 | min, max and mean are each the nanosecond value divided by 1000, a missing one giving 0; an empty `lat_ns` gives all zeros |
| Normalizer.DirResultOf | fio-collector/fio_monitor.py:127-154 | a present `iops`, `bw_bytes`, `bw_kbps`, each present `lat_ns` field and a present percentile table are copied; each missing one gives 0, or the empty table; `latency_us` is `convert_latency_to_us` of `lat_ns`, i.e. `latency_ns / 1000` component-wise; a missing section gives the all-zero block |
| Normalizer.JobResultOf | fio-collector/fio_monitor.py:126-156 | a present `read` or `write` section becomes its normalized block, a missing one the all-zero block; `cpu` is `usr_cpu + sys_cpu`, a missing term counting as 0 |
| Normalizer.ProcessFioResults | fio-collector/fio_monitor.py:114-160 | the loop's record equals the three metadata entries followed by the per-job assignments applied in order (`Normalized`) |
| Normalizer.EntryKeys | fio-collector/fio_monitor.py:125-126 | a key is assigned iff some job is stored under it |
| Normalizer.NormalizedStartsWithMetadata | fio-collector/fio_monitor.py:118-122 | the record's first three keys are `timestamp`, `test_name`, `global_options`, in that order, whatever the jobs |
| Normalizer.NormalizedKeys | fio-collector/fio_monitor.py:118-158 | a key is in the record iff it is a metadata key or some job's name |
| Normalizer.NormalizedEntryIsJob | fio-collector/fio_monitor.py:125-158 | every entry under a non-metadata key holds a job result |
| Normalizer.NormalizedWellFormed | fio-collector/fio_monitor.py:118-158 | the record repeats no key, has the three metadata keys, and holds a job under every other key |
| Normalizer.NormalizedLookupUnnamed | fio-collector/fio_monitor.py:118-158 | a key no job is named keeps its metadata value or stays absent |
| Normalizer.NormalizedLookupNamed | fio-collector/fio_monitor.py:158 | the value under a job name is the result of the LAST job with that name; later jobs overwrite earlier ones, including a job named like a metadata key |
| Normalizer.NoJobsOnlyMetadata | fio-collector/fio_monitor.py:118-125 | with no jobs the record is exactly timestamp = now, test_name, and global_options (`{}` when absent) |
| OrderedDict.Get | fio-collector/fio_monitor.py:126 | `get` finds nothing iff the key is absent; otherwise it returns the value of an entry with that key |
| OrderedDict.Put | fio-collector/fio_monitor.py:158 | assignment keeps the key order when the key is present and appends the key otherwise |
| OrderedDict.GetPut | fio-collector/fio_monitor.py:158 | after `d[k] = v`, `k` reads `v` and every other key reads as before |
| OrderedDict.PutInPlace | fio-collector/fio_monitor.py:158 | assignment leaves every entry with another key at its position |
| OrderedDict.PutDistinct | fio-collector/fio_monitor.py:158 | assignment never creates a repeated key |
| OrderedDict.GetPutAll | fio-collector/fio_monitor.py:125-158 | after a run of assignments, a key reads its last assigned value, or its old value when it was never assigned |
| OrderedDict.PutAllKeys | fio-collector/fio_monitor.py:125-158 | after a run of assignments, the keys are the old keys and the assigned ones |
| OrderedDict.PutAllDistinct | fio-collector/fio_monitor.py:125-158 | a run of assignments never creates a repeated key |
| OrderedDict.LastGetIsLast | fio-collector/fio_monitor.py:125-158 | the last assignment to a key is the one that is found |
| OrderedDict.LastGetFound | fio-collector/fio_monitor.py:125-158 | the value found is the value of some assignment to that key |
| Invoker.NatToString | fio-collector/fio_monitor.py:81 | `str` of a natural number is a non-empty string of decimal digits, with a leading `0` exactly when the number is zero |
| Invoker.NatToStringValue | fio-collector/fio_monitor.py:81 | the digits `str` writes for a natural number read back as that number |
| Invoker.StrIntValue | fio-collector/fio_monitor.py:81 | `str` of an integer parameter is its decimal digits, preceded by `-` when negative, and reads back as the integer |
| Invoker.FlagParams | fio-collector/fio_monitor.py:79-80 | no parameter keyed `name` becomes a flag |
| Invoker.BuildCommand | fio-collector/fio_monitor.py:78-81 | the loop's command equals `fio --name <test>` followed by the flag words (`Command`) |
| Invoker.CommandShape | fio-collector/fio_monitor.py:78-81 | the command has length 3 + 2·(non-`name` parameters) and begins `fio --name <test>`; pair i is `--key` then `str(value)` of the i-th non-`name` parameter, in map order |
| Invoker.FlagsArePairs | fio-collector/fio_monitor.py:79-81 | the flag words are exactly one `--key`, `str(value)` pair per non-`name` parameter, in order |
| Invoker.FlagParamsNoName | fio-collector/fio_monitor.py:79-80 | without a `name` key every parameter becomes a flag, in order |
| Invoker.FlagParamsMembers | fio-collector/fio_monitor.py:79-80 | a parameter becomes a flag iff its key is not `name` |
| Invoker.TimeoutOf | fio-collector/fio_monitor.py:89 | the timeout is `runtime + 30`, with `runtime` 120 when absent and a boolean counting as 0 or 1; a string `runtime` raises, so there is no timeout |
| Invoker.TestRun | fio-collector/fio_monitor.py:83-112 | a result exists iff the timeout could be computed and fio exited 0 with JSON output; that result is the normalized document |
| Invoker.OnlyCleanExitYieldsResult | fio-collector/fio_monitor.py:92-112 | with a usable `runtime`, a result exists iff the outcome is exit 0 with a JSON document; a timeout, an exception, a non-zero exit and unparseable output each give `None` |
| Report.P95Us | fio-collector/fio_monitor.py:248-249 | p95 in microseconds times 1000 is `percentiles["95.000000"]`, or 0 when that key is absent |
| Report.KeyMetricsOf | fio-collector/fio_monitor.py:245-252 | iops and `bw_kbps` are copied unchanged; read and write p95 are `percentiles["95.000000"] / 1000`, default 0 |
| Report.JobKeys | fio-collector/fio_monitor.py:241-243 | a key is listed iff it is a key of the record and not a metadata key (the keys the loop does not `continue` past) |
| Report.ExtractKeyMetrics | fio-collector/fio_monitor.py:237-254 | the loop's dict equals `MetricsOf`, the metrics of every non-metadata entry in record order |
| Report.MetricsKeys | fio-collector/fio_monitor.py:241-245 | the metrics dict's keys are exactly the record's job keys, in record order |
| Report.MetricsLookup | fio-collector/fio_monitor.py:245-252 | the metrics under a job key are the key metrics of the job stored under it |
| Report.MetricsLookupNone | fio-collector/fio_monitor.py:242-243 | metadata keys, and keys the record lacks, have no metrics |
| Report.MetricsOfSnoc | fio-collector/fio_monitor.py:241-252 | one more entry adds its job's metrics unless its key is a metadata key |
| Report.Matching | fio-collector/fio_monitor.py:210 | the last filtered record is a record of the history |
| Report.MatchingMembers | fio-collector/fio_monitor.py:210 | every filtered record is in the history and has that `test_name` |
| Report.MatchingCount | fio-collector/fio_monitor.py:210-233 | the number of filtered records is the number of history indices whose `test_name` matches |
| Report.MatchingLast | fio-collector/fio_monitor.py:210-229 | the last filtered record is the last matching record of the history |
| Report.MatchingNone | fio-collector/fio_monitor.py:210-212 | the filter is empty iff no history record has that `test_name` |
| Report.AggregateTestResults | fio-collector/fio_monitor.py:223-235 | no results give nothing; otherwise `last_run` is the last result's timestamp, `runs_count` the number of results, and `latest_metrics` the last result's key metrics |
| Report.SummarySnoc | fio-collector/fio_monitor.py:208-213 | one more configured test adds its entry exactly when some result matches it |
| Report.ReportOf | fio-collector/fio_monitor.py:195-221 | no report for an empty history; otherwise `total_tests` is the history length, `generated_at` the clock reading, and the summary is the per-test summary |
| Report.SummaryLookup | fio-collector/fio_monitor.py:208-213 | a test has a summary entry iff it is configured and some history record has its name; the entry is the aggregate of its matching records |
| Report.SummaryEntry | fio-collector/fio_monitor.py:208-234 | the entry of a configured test takes `last_run` and `latest_metrics` from its last matching record, and `runs_count` is the number of matching records |
| Report.SummaryNoEntry | fio-collector/fio_monitor.py:208-213 | a test with no result in the history has no entry |
| Report.MatchingReportable | fio-collector/fio_monitor.py:229-234 | the last matching record of a summarizable history has a timestamp and job entries |
| Monitor.FioMonitor.constructor | fio-collector/fio_monitor.py:20-31 | the monitor starts with the given tests and an empty history |
| Monitor.FioMonitor.RunFioTest | fio-collector/fio_monitor.py:70-112 | returns the command line, the timeout and the result of `TestRun`; every result is well-formed |
| Monitor.FioMonitor.SaveResults | fio-collector/fio_monitor.py:170-187 | `None` or an empty dict leaves the history unchanged; otherwise the result is appended at the end and earlier records stay as they were; a normalized result keeps a history of normalized records so |
| Monitor.FioMonitor.GenerateReport | fio-collector/fio_monitor.py:195-221 | the report equals `ReportOf` over the configured tests and the current history |
| Monitor.FioMonitor.SummarizeTest | fio-collector/fio_monitor.py:209-213 | one loop step extends the summary of the first i tests to the first i + 1 |
| Monitor.FioMonitor.RunAndSave | fio-collector/fio_monitor.py:268-270 | runs one test and appends exactly what `save_results` appends for its result |
| Monitor.FioMonitor.RunConfiguredTests | fio-collector/fio_monitor.py:267-270 | one pass appends each configured test's saved result, in configuration order |
| Monitor.FioMonitor.RunCycle | fio-collector/fio_monitor.py:263-273 | cycle c appends its pass to the history and returns the report over the history as it then stands |
| Monitor.FioMonitor.RunMonitoringCycle | fio-collector/fio_monitor.py:256-273 | runs exactly `cycles` cycles (none when not positive); the history grows by each cycle's results in order, and report c is made after cycle c |
| Monitor.SavedAllSnoc | fio-collector/fio_monitor.py:267-270 | saving one more result appends what that result saves |
| Monitor.SavedAllWellFormed | fio-collector/fio_monitor.py:269-270 | saving well-formed results appends only well-formed records |
| Monitor.RunResultsWellFormed | fio-collector/fio_monitor.py:267-270 | a pass over the tests appends only normalized records |
| Monitor.CyclesResultsWellFormed | fio-collector/fio_monitor.py:262-270 | any number of cycles appends only normalized records |
| Monitor.WellFormedReportable | fio-collector/fio_monitor.py:229-234 | every history of normalized records can be summarized |
| Monitor.CycleReports | fio-collector/fio_monitor.py:262-273 | one report per cycle |
| Monitor.CyclesSnoc | fio-collector/fio_monitor.py:262-270 | one more cycle appends its pass at the end of the history |
| Monitor.CycleReportIs | fio-collector/fio_monitor.py:273 | a cycle's report is `ReportOf` over the history after that cycle |
| Monitor.CycleReportsAt | fio-collector/fio_monitor.py:262-273 | report c of a run of cycles is the report made at the end of cycle c |
| Monitor.CyclesResultsPrefix | fio-collector/fio_monitor.py:262-270 | the history after fewer cycles is a prefix of the history after more |
| Monitor.DefaultTimeout | fio-collector/fio_monitor.py:52-89 | the built-in test's `runtime` of 120 gives a timeout of 150 seconds |
| Analyzer.AnalysisOf | fio_analyzer.py:29-53 | the flattening loop: an empty history gives nothing; otherwise it fails iff some record cannot be read, and else gives exactly `Flatten` of the history |
| Analyzer.CreateTimeseriesAnalysis | fio_analyzer.py:27-53 | the nested loop's outcome equals `AnalysisOf` |
| Analyzer.AppendJobRows | fio_analyzer.py:39-53 | the inner loop fails iff some non-metadata entry is not a job; otherwise it appends the record's rows |
| Analyzer.RowsStep | fio_analyzer.py:39-53 | one more entry adds its row unless its key is a metadata key |
| Analyzer.AnalyzableSnoc | fio_analyzer.py:35-37 | a readable prefix and one more readable record give a readable prefix |
| Analyzer.FlattenStep | fio_analyzer.py:35-53 | one more record appends its rows after the earlier ones |
| Analyzer.RecordRowsShape | fio_analyzer.py:39-46 | a record gives one row per job key, in key order; each row carries the record's timestamp and `test_name` and its job key as `job_name` |
| Analyzer.RecordRowsSource | fio_analyzer.py:39-53 | every row is built from one job entry of its record |
| Analyzer.RowMatchesKeyMetrics | fio_analyzer.py:47-52 | a row's metrics equal what `extract_key_metrics` gives for the same record and job (iops and bandwidth unchanged, p95 from `"95.000000"` / 1000, default 0) |
| Analyzer.FlattenAppend | fio_analyzer.py:35-39 | rows keep history order: the rows of two histories in a row are the rows of each, in turn |
| Analyzer.FlattenSource | fio_analyzer.py:35-46 | every row carries the timestamp and `test_name` of one history record, and one of that record's job keys |
| Analyzer.FlattenCount | fio_analyzer.py:35-42 | the number of rows is the sum over records of their non-metadata key counts |

## Left out

- Running fio, `capture_output` and `json.loads` are not modelled. Their result is the `Outcome`
  parameter. Documents whose fields have unexpected JSON types are not modelled:
  some make `process_fio_results` raise (a string `lat_ns.min`, fio_monitor.py:165), which is the
  `Raised` outcome, and others pass through unchanged (a string `iops` or a non-string `jobname`).
- JSON `null` and floating-point parameter values are not modelled. Parameter values are strings,
  integers or booleans, and metric values are exact `real`s, not IEEE doubles.
- File I/O is not modelled: the per-run result file, `save_history`, the report file, `load_history`
  and the CSV export.
- Logging, `setup_logging`, `mkdir`, `argparse` and `main` (including single-run mode) are not modelled.
- Analyzer.AnalysisOf: a non-empty history without any job entries gives an empty table here; `create_timeseries_analysis` then builds an empty DataFrame and `create_plots` fails on its missing columns (fio_analyzer.py:73). The DataFrame and the plots are not modelled, so that failure is not either.
- `load_configs` reading a file is not modelled. The configured tests are a constructor parameter.
  The built-in default list is `DefaultConfigs`.
- `time.sleep`, `KeyboardInterrupt` and `cycles=None` (run forever) are not modelled.
  `RunMonitoringCycle` runs a finite, given number of cycles.
- `datetime.now()` is an opaque string parameter. In the analyzer a text timestamp is assumed to
  parse with `fromisoformat`; a text that fails to parse is not modelled.
- The analyzer's pandas DataFrame, plots, MB/s scaling and `groupby` statistics are not modelled.
  The flattened rows are the result.
- Monitor.DefaultTimeout: the literal argv of the default test is not proved. Only its timeout is
  proved; `CommandShape` covers the shape of every command.
