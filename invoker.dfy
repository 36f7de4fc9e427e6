/**
  The part of `run_fio_test` in fio_monitor.py that builds the fio command
  line and its timeout, and decides from the way the child process ended
  whether a result is produced.
 */
module Invoker {
  import opened Wrappers
  import opened OrderedDict
  import opened FioOutput
  import opened Normalizer

  /** A scalar from the configuration file's `parameters` object. */
  datatype ParamValue = PStr(s: string) | PInt(i: int) | PBool(b: bool)

  /** One entry of the configuration list: a test name and its fio parameters. */
  datatype TestConfig = TestConfig(name: string, parameters: Dict<string, ParamValue>)

  const DefaultRuntime: int := 120
  const TimeoutGrace: int := 30

  function DigitChar(d: nat): (c: char)
    requires d < 10
    ensures '0' <= c <= '9' && c as int - '0' as int == d
  {
    ('0' as int + d) as char
  }

  /** Decimal digits of a natural number, without leading zeros. */
  function NatToString(n: nat): (s: string)
    ensures |s| >= 1
    ensures forall c :: c in s ==> '0' <= c <= '9'
    ensures s[0] == '0' <==> n == 0
  {
    if n < 10 then [DigitChar(n)] else NatToString(n / 10) + [DigitChar(n % 10)]
  }

  /** The number a string of decimal digits denotes. */
  function DigitsValue(s: string): nat
    requires forall c :: c in s ==> '0' <= c <= '9'
  {
    if s == [] then 0
    else
      var n := |s| - 1;
      assert forall c :: c in s[..n] ==> c in s;
      assert s[n] in s;
      DigitsValue(s[..n]) * 10 + (s[n] as int - '0' as int)
  }

  /** Reading back the digits of `n` gives `n`. */
  lemma {:induction false} NatToStringValue(n: nat)
    ensures DigitsValue(NatToString(n)) == n
  {
    var s := NatToString(n);
    if n >= 10 {
      NatToStringValue(n / 10);
      assert s[..|s| - 1] == NatToString(n / 10);
    } else {
      assert s[..0] == [];
    }
  }

  /** Python's `str` on a parameter value. */
  function Str(v: ParamValue): string {
    match v
    case PStr(s) => s
    case PInt(i) => if i < 0 then "-" + NatToString(-i) else NatToString(i)
    case PBool(b) => if b then "True" else "False"
  }

  /** An integer parameter is written as its sign and decimal digits, and reads back as itself. */
  lemma {:induction false} StrIntValue(i: int)
    ensures var s := Str(PInt(i));
      if i >= 0 then
        (forall c :: c in s ==> '0' <= c <= '9') && DigitsValue(s) == i
      else
        |s| >= 2 && s[0] == '-' && s[1] != '0'
        && (forall c :: c in s[1..] ==> '0' <= c <= '9') && DigitsValue(s[1..]) == -i
  {
    if i >= 0 {
      NatToStringValue(i);
    } else {
      NatToStringValue(-i);
      assert Str(PInt(i))[1..] == NatToString(-i);
    }
  }

  /** The parameters that become flags: every entry except the one keyed `name`, in order. */
  function FlagParams(params: Dict<string, ParamValue>): (ps: Dict<string, ParamValue>)
    ensures forall i :: 0 <= i < |ps| ==> ps[i].0 != "name"
  {
    if params == [] then []
    else
      var last := params[|params| - 1];
      FlagParams(params[..|params| - 1]) + (if last.0 == "name" then [] else [last])
  }

  /** The flag words appended for the parameters: `--key value` per entry not keyed `name`. */
  function Flags(params: Dict<string, ParamValue>): seq<string> {
    if params == [] then []
    else
      var last := params[|params| - 1];
      Flags(params[..|params| - 1]) + (if last.0 == "name" then [] else ["--" + last.0, Str(last.1)])
  }

  /** The fio command line for a test. */
  function Command(config: TestConfig): seq<string> {
    ["fio", "--name", config.name] + Flags(config.parameters)
  }

  /**
    The `timeout` argument: `runtime` (120 when absent) plus 30 seconds. A
    string `runtime` makes the addition raise inside the `try`, so no value.
   */
  function TimeoutOf(params: Dict<string, ParamValue>): (t: Option<int>)
    ensures Get(params, "runtime").None? ==> t == Some(DefaultRuntime + TimeoutGrace)
    ensures Get(params, "runtime").Some? && Get(params, "runtime").value.PInt? ==>
      t == Some(Get(params, "runtime").value.i + TimeoutGrace)
    ensures Get(params, "runtime").Some? && Get(params, "runtime").value.PBool? ==>
      t == Some((if Get(params, "runtime").value.b then 1 else 0) + TimeoutGrace)
    ensures t.None? <==> Get(params, "runtime").Some? && Get(params, "runtime").value.PStr?
  {
    var runtime: Option<ParamValue> := Get(params, "runtime");
    match runtime
    case None => Some(DefaultRuntime + TimeoutGrace)
    case Some(PInt(n)) => Some(n + TimeoutGrace)
    case Some(PBool(b)) => Some((if b then 1 else 0) + TimeoutGrace)
    case Some(PStr(_)) => None
  }

  /**
    What `run_fio_test` returns: a normalized record only when the timeout
    could be computed, fio exited with status 0 and its output parsed as
    JSON; `None` on every other path.
   */
  function TestRun(config: TestConfig, outcome: Outcome, now: string): (r: Option<Record>)
    ensures r.Some? <==>
      && TimeoutOf(config.parameters).Some?
      && outcome.Exited? && outcome.returnCode == 0 && outcome.stdout.Json?
    ensures r.Some? ==> r.value == Normalized(config.name, outcome.stdout.doc, now)
  {
    if TimeoutOf(config.parameters).None? then None
    else
      match outcome
      case Exited(code, Json(doc)) => if code != 0 then None else Some(Normalized(config.name, doc, now))
      case _ => None
  }

  /** The loop that grows `cmd` one `--key value` pair at a time. */
  method BuildCommand(config: TestConfig) returns (cmd: seq<string>)
    ensures cmd == Command(config)
  {
    cmd := ["fio", "--name", config.name];
    var params := config.parameters;
    var i := 0;
    while i < |params|
      invariant 0 <= i <= |params|
      invariant cmd == ["fio", "--name", config.name] + Flags(params[..i])
    {
      var (key, value) := params[i];
      assert params[..i + 1][..i] == params[..i];
      if key != "name" {
        cmd := cmd + ["--" + key, Str(value)];
      }
      i := i + 1;
    }
    assert params[..i] == params;
  }

  /** The flag words are exactly the `--key value` pairs of the non-`name` parameters, in order. */
  lemma {:induction false} FlagsArePairs(params: Dict<string, ParamValue>)
    ensures |Flags(params)| == 2 * |FlagParams(params)|
    ensures forall i :: 0 <= i < |FlagParams(params)| ==>
      Flags(params)[2 * i] == "--" + FlagParams(params)[i].0 &&
      Flags(params)[2 * i + 1] == Str(FlagParams(params)[i].1)
  {
    if params != [] {
      FlagsArePairs(params[..|params| - 1]);
    }
  }

  /** When no parameter is keyed `name`, every parameter becomes a flag. */
  lemma {:induction false} FlagParamsNoName(params: Dict<string, ParamValue>)
    requires forall i :: 0 <= i < |params| ==> params[i].0 != "name"
    ensures FlagParams(params) == params
  {
    if params != [] {
      FlagParamsNoName(params[..|params| - 1]);
      assert params == params[..|params| - 1] + [params[|params| - 1]];
    }
  }

  /** A parameter keyed other than `name` is among the flag parameters, and vice versa. */
  lemma {:induction false} FlagParamsMembers(params: Dict<string, ParamValue>, key: string, value: ParamValue)
    ensures (key, value) in FlagParams(params) <==> (key, value) in params && key != "name"
  {
    if params != [] {
      FlagParamsMembers(params[..|params| - 1], key, value);
      assert params == params[..|params| - 1] + [params[|params| - 1]];
    }
  }

  /**
    The command begins `fio --name <test>` and continues with one
    `--key value` pair per parameter not keyed `name`, in parameter order.
   */
  lemma CommandShape(config: TestConfig)
    ensures var cmd := Command(config); var ps := FlagParams(config.parameters);
      && |cmd| == 3 + 2 * |ps|
      && cmd[..3] == ["fio", "--name", config.name]
      && forall i :: 0 <= i < |ps| ==> cmd[3 + 2 * i] == "--" + ps[i].0 && cmd[4 + 2 * i] == Str(ps[i].1)
  {
    FlagsArePairs(config.parameters);
  }

  /** A result exists exactly for exit status 0 with parseable output, and it is the normalized document. */
  lemma {:induction false} OnlyCleanExitYieldsResult(config: TestConfig, outcome: Outcome, now: string)
    requires Get(config.parameters, "runtime").None? || !Get(config.parameters, "runtime").value.PStr?
    ensures TestRun(config, outcome, now).Some? <==> exists doc :: outcome == Exited(0, Json(doc))
    ensures outcome.TimedOut? || outcome.Raised? ==> TestRun(config, outcome, now).None?
    ensures outcome.Exited? && outcome.stdout.NotJson? ==> TestRun(config, outcome, now).None?
    ensures outcome.Exited? && outcome.returnCode != 0 ==> TestRun(config, outcome, now).None?
  {
    if outcome.Exited? && outcome.returnCode == 0 && outcome.stdout.Json? {
      assert outcome == Exited(0, Json(outcome.stdout.doc));
    }
  }
}
