/**
 * cqlsh.py from start to end: the starting override from the environment
 * (lines 20-23), the argument filter (lines 26-51) and the interpreter search
 * with `is_supported_version` as its classifier (lines 97-107).
 */
module Launcher {
  import opened VersionPolicy
  import opened ArgumentFilter
  import opened Messages
  import opened InterpreterResolver

  /**
   * The environment variables the script reads: CQLSH_PYTHON, and
   * USER_SPECIFIED_PYTHON, which the script never initialises and so inherits
   * when CQLSH_PYTHON is empty ("" when unset).
   */
  datatype Environment = Environment(cqlshPython: string, userSpecifiedPython: string)

  /** Lines 20-23: the value USER_SPECIFIED_PYTHON has when the argument loop starts. */
  function InitialOverride(env: Environment): string
  {
    if env.cqlshPython != "" then env.cqlshPython else env.userSpecifiedPython
  }

  /** The whole script: a malformed `--python` ends it before any probe; otherwise the search runs. */
  function Script(args: seq<string>, env: Environment, probe: string -> string): Outcome
  {
    match Filter(args, InitialOverride(env))
    case MissingInterpreterPath => Exit(1, [MissingPythonValue], [])
    case Forward(override, forwarded) => Resolve(Candidates(override), probe, Classify, forwarded)
  }

  /** The script as it runs, statement by statement. */
  method RunScript(args: seq<string>, env: Environment, probe: string -> string) returns (outcome: Outcome)
    ensures outcome == Script(args, env, probe)
  {
    var userSpecified := env.userSpecifiedPython;
    if env.cqlshPython != "" {
      userSpecified := env.cqlshPython;
    }
    var filtered := FilterArguments(args, userSpecified);
    if filtered.MissingInterpreterPath? {
      return Exit(1, [MissingPythonValue], []);
    }
    if filtered.override != "" {
      outcome := ResolveInterpreter([filtered.override], probe, Classify, filtered.args);
    } else {
      outcome := ResolveInterpreter(DefaultCandidates, probe, Classify, filtered.args);
    }
  }

  // ---------------------------------------------------------------------------
  // Properties of the whole script
  // ---------------------------------------------------------------------------

  /**
   * A `--python` left without a value (last before the end or before `--`)
   * ends the script with status 1 and the message on stdout, and no
   * candidate is probed.
   */
  lemma MissingValueProbesNothing(pre: seq<string>, post: seq<string>, env: Environment, probe: string -> string)
    requires EndOfOptions !in pre
    ensures Script(pre + [PythonOption], env, probe) == Exit(1, [MissingPythonValue], [])
    ensures Script(pre + [PythonOption, EndOfOptions] + post, env, probe) == Exit(1, [MissingPythonValue], [])
  {
    TrailingOptionIsMissingValue(pre, InitialOverride(env));
    OptionBeforeSeparatorIsMissingValue(pre, post, InitialOverride(env));
  }

  /** Only the missing-value message goes to stdout, and it is written only when the filter fails. */
  lemma StdoutOnlyForMissingValue(args: seq<string>, env: Environment, probe: string -> string)
    ensures forall m :: m in Script(args, env, probe).messages ==>
      (StreamOf(m) == Stdout <==> Filter(args, InitialOverride(env)).MissingInterpreterPath?)
  {
    match Filter(args, InitialOverride(env))
    case MissingInterpreterPath =>
    case Forward(override, forwarded) =>
      SearchWritesToStderr(Candidates(override), probe, Classify, forwarded);
  }

  /**
   * A non-empty override is the only candidate: it alone is probed, it is
   * launched with the filtered arguments when its version is usable, and the
   * script fails otherwise.
   */
  lemma OverrideIsSoleCandidate(args: seq<string>, env: Environment, probe: string -> string)
    requires Filter(args, InitialOverride(env)).Forward?
    requires Filter(args, InitialOverride(env)).override != ""
    ensures
      var f := Filter(args, InitialOverride(env));
      var o := Script(args, env, probe);
      o.probed == [f.override] &&
      (o.Launch? <==> Usable(Classify, probe(f.override))) &&
      (o.Launch? ==> o.interpreter == f.override && o.args == f.args) &&
      (o.Exit? ==> o == Exit(1, PassedOver(probe(f.override)) + [NoInterpreterFound], [f.override]))
  {
    var f := Filter(args, InitialOverride(env));
    var cands := [f.override];
    ProbesInOrder(cands, probe, Classify, f.args);
    LaunchIffUsable(cands, probe, Classify, f.args);
    if !Usable(Classify, probe(f.override)) {
      FailsWhenNoneUsable(cands, probe, Classify, f.args);
      assert Rejections(cands, probe) == PassedOver(probe(f.override));
    }
  }

  /**
   * Without an override, python3 is probed first and python second, never
   * anything else, and only one of them can be launched.
   */
  lemma DefaultsInOrder(args: seq<string>, env: Environment, probe: string -> string)
    requires Filter(args, InitialOverride(env)).Forward?
    requires Filter(args, InitialOverride(env)).override == ""
    ensures Script(args, env, probe).probed == ["python3"] || Script(args, env, probe).probed == ["python3", "python"]
    ensures Script(args, env, probe).Launch? ==> Script(args, env, probe).interpreter in DefaultCandidates
  {
    var f := Filter(args, InitialOverride(env));
    var o := Resolve(DefaultCandidates, probe, Classify, f.args);
    assert Script(args, env, probe) == o;
    ProbesInOrder(DefaultCandidates, probe, Classify, f.args);
    LaunchIffUsable(DefaultCandidates, probe, Classify, f.args);
    NonEmptyPrefixOfPair(o.probed, "python3", "python");
  }

  /** A non-empty prefix of a two-element sequence is its first element or all of it. */
  lemma NonEmptyPrefixOfPair(p: seq<string>, a: string, b: string)
    requires p != [] && p <= [a, b]
    ensures p == [a] || p == [a, b]
  {
    if |p| == 1 {
      assert p == [a, b][..1];
    } else {
      assert p == [a, b][..2];
    }
  }

  /**
   * `--python v` on the command line wins over CQLSH_PYTHON and anything
   * inherited: the script behaves the same whatever the environment.
   */
  lemma CommandLineBeatsEnvironment(
    pre: seq<string>, v: string, post: seq<string>, env1: Environment, env2: Environment, probe: string -> string)
    requires EndOfOptions !in pre && EndOfOptions !in post
    requires PythonOption !in post
    requires v != PythonOption && v != EndOfOptions
    ensures Script(pre + [PythonOption, v] + post, env1, probe) == Script(pre + [PythonOption, v] + post, env2, probe)
  {
    LastValueWins(pre, v, post, InitialOverride(env1));
    LastValueWins(pre, v, post, InitialOverride(env2));
    KeptIgnoresOverride(Start(InitialOverride(env1)), Start(InitialOverride(env2)), pre);
  }

  /**
   * With no `--python` and no `--` on the command line, a non-empty
   * CQLSH_PYTHON is the only candidate and every argument is forwarded.
   */
  lemma EnvironmentChoosesInterpreter(args: seq<string>, env: Environment, probe: string -> string)
    requires PythonOption !in args && EndOfOptions !in args
    requires env.cqlshPython != ""
    ensures Script(args, env, probe).probed == [env.cqlshPython]
    ensures Script(args, env, probe).Launch? ==>
      Script(args, env, probe).interpreter == env.cqlshPython && Script(args, env, probe).args == args
  {
    FilterWithoutSeparator(args, env.cqlshPython);
    RunPlain(Start(env.cqlshPython), args);
    OverrideIsSoleCandidate(args, env, probe);
  }

  /** `--python ""` empties the override, so the defaults are searched even when CQLSH_PYTHON is set. */
  lemma EmptyValueFallsBack(env: Environment, probe: string -> string)
    ensures Script([PythonOption, ""], env, probe) == Resolve(DefaultCandidates, probe, Classify, [])
  {
    LastValueWins([], "", [], InitialOverride(env));
    assert [] + [PythonOption, ""] + [] == [PythonOption, ""];
    ResolveHead(DefaultCandidates, probe, Classify, []);
  }

  // ---------------------------------------------------------------------------
  // Worked cases
  // ---------------------------------------------------------------------------

  /** An override that cannot be run: no warning, status 1, "No appropriate Python interpreter found.". */
  lemma MissingOverrideFails(env: Environment)
    ensures Script([PythonOption, "/opt/none/python"], env, _ => "") ==
      Exit(1, [NoInterpreterFound], ["/opt/none/python"])
  {
    LastValueWins([], "/opt/none/python", [], InitialOverride(env));
    assert [] + [PythonOption, "/opt/none/python"] + [] == [PythonOption, "/opt/none/python"];
  }

  /** A lone candidate printing 3.9 is launched with no warning. */
  lemma SupportedAlone(probe: string -> string, args: seq<string>)
    requires probe("python3") == "3.9"
    ensures Resolve(["python3"], probe, Classify, args) == Launch("python3", args, [], ["python3"])
  {
    ClassifyExamples();
    ResolveHead(["python3"], probe, Classify, args);
  }

  /** A lone candidate printing 3.7 is launched after one deprecation warning naming 3.7. */
  lemma DeprecatedAlone(probe: string -> string, args: seq<string>)
    requires probe("python3") == "3.7"
    ensures Resolve(["python3"], probe, Classify, args) ==
      Launch("python3", args, [DeprecatedVersion("3.7")], ["python3"])
  {
    ClassifyExamples();
    ResolveHead(["python3"], probe, Classify, args);
  }

  /** python3 printing 2.7 draws one warning, then python printing 3.9 is launched. */
  lemma TooOldThenSupported(probe: string -> string, args: seq<string>)
    requires probe("python3") == "2.7" && probe("python") == "3.9"
    ensures Resolve(DefaultCandidates, probe, Classify, args) ==
      Launch("python", args, [UnsupportedVersion("2.7")], DefaultCandidates)
  {
    ClassifyExamples();
    RejectThenLaunch("python3", "python", probe, Classify, args);
  }

  /** python3 printing 3.12 draws one warning, then python printing 3.9 is launched. */
  lemma TooNewThenSupported(probe: string -> string, args: seq<string>)
    requires probe("python3") == "3.12" && probe("python") == "3.9"
    ensures Resolve(DefaultCandidates, probe, Classify, args) ==
      Launch("python", args, [UnsupportedVersion("3.12")], DefaultCandidates)
  {
    ClassifyExamples();
    RejectThenLaunch("python3", "python", probe, Classify, args);
  }
}
