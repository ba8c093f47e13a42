/**
 * The interpreter search of cqlsh.py: `run_if_supported_version` (lines
 * 76-94) applied to each candidate in turn (lines 97-104), and the failure at
 * the end of the list (lines 106-107).
 *
 * Running a candidate to learn its version is a parameter, `probe`, that maps
 * a candidate to the version text it prints; "" stands for a candidate that
 * cannot be run.  The classification is a parameter too, `tier`; the script
 * uses `is_supported_version`, which the launcher passes in as
 * `VersionPolicy.Classify`.  `exec` is an outcome: a launch ends the search
 * because the shell is replaced by the interpreter.
 */
module InterpreterResolver {
  import opened VersionPolicy
  import opened Messages

  /** The candidates tried when no override is given, in this order. */
  const DefaultCandidates: seq<string> := ["python3", "python"]

  /**
   * How the script ends: replaced by `interpreter` run on the launch target
   * with `args`, or exiting with `code`.  `messages` is everything written on
   * the way, `probed` the candidates whose version was asked for, in order.
   */
  datatype Outcome =
    | Launch(interpreter: string, args: seq<string>, messages: seq<Message>, probed: seq<string>)
    | Exit(code: int, messages: seq<Message>, probed: seq<string>)

  /** Lines 97-104: the override alone when it is non-empty, else the default candidates. */
  function Candidates(override: string): seq<string>
  {
    if override != "" then [override] else DefaultCandidates
  }

  /** A version the search launches: the probe printed something and it is not unsupported. */
  predicate Usable(tier: string -> Tier, version: string)
  {
    version != "" && tier(version) != Unsupported
  }

  /** What is written for a candidate the search passes over: nothing for an empty version, else one warning. */
  function PassedOver(version: string): seq<Message>
  {
    if version == "" then [] else [UnsupportedVersion(version)]
  }

  /** What is written before a usable candidate is launched: a warning only when it is deprecated. */
  function BeforeLaunch(tier: string -> Tier, version: string): seq<Message>
  {
    if tier(version) == Deprecated then [DeprecatedVersion(version)] else []
  }

  /** What happened before `o`: earlier messages and probes come first. */
  function After(messages: seq<Message>, probed: seq<string>, o: Outcome): Outcome
  {
    o.(messages := messages + o.messages, probed := probed + o.probed)
  }

  /**
   * The search, candidate by candidate: an empty version is passed over in
   * silence, an unsupported one is reported and passed over, a deprecated one
   * is reported and launched, a supported one is launched.
   */
  function Resolve(cands: seq<string>, probe: string -> string, tier: string -> Tier, args: seq<string>): Outcome
  {
    if cands == [] then Exit(1, [NoInterpreterFound], [])
    else
      var interpreter, version := cands[0], probe(cands[0]);
      if version == "" then After([], [interpreter], Resolve(cands[1..], probe, tier, args))
      else match tier(version)
        case Supported => Launch(interpreter, args, [], [interpreter])
        case Deprecated => Launch(interpreter, args, [DeprecatedVersion(version)], [interpreter])
        case Unsupported =>
          After([UnsupportedVersion(version)], [interpreter], Resolve(cands[1..], probe, tier, args))
  }

  /** Adding history in two steps is adding it at once. */
  lemma AfterAfter(m1: seq<Message>, p1: seq<string>, m2: seq<Message>, p2: seq<string>, o: Outcome)
    ensures After(m1, p1, After(m2, p2, o)) == After(m1 + m2, p1 + p2, o)
  {
    assert m1 + (m2 + o.messages) == m1 + m2 + o.messages;
    assert p1 + (p2 + o.probed) == p1 + p2 + o.probed;
  }

  /** The first step of the search: launch the head when usable, otherwise pass it over. */
  lemma ResolveHead(cands: seq<string>, probe: string -> string, tier: string -> Tier, args: seq<string>)
    requires cands != []
    ensures Resolve(cands, probe, tier, args) ==
      var version := probe(cands[0]);
      if Usable(tier, version) then Launch(cands[0], args, BeforeLaunch(tier, version), [cands[0]])
      else After(PassedOver(version), [cands[0]], Resolve(cands[1..], probe, tier, args))
  {
  }

  /**
   * Two candidates, the first printing an unsupported version and the second a
   * usable one: one warning, then the second is launched.
   */
  lemma RejectThenLaunch(first: string, second: string, probe: string -> string, tier: string -> Tier, args: seq<string>)
    requires probe(first) != "" && tier(probe(first)) == Unsupported
    requires Usable(tier, probe(second))
    ensures Resolve([first, second], probe, tier, args) ==
      Launch(second, args, [UnsupportedVersion(probe(first))] + BeforeLaunch(tier, probe(second)), [first, second])
    ensures tier(probe(second)) == Supported ==>
      Resolve([first, second], probe, tier, args) == Launch(second, args, [UnsupportedVersion(probe(first))], [first, second])
  {
    ResolveHead([second], probe, tier, args);
    ResolveHead([first, second], probe, tier, args);
    assert [first, second][1..] == [second];
    assert [first] + [second] == [first, second];
    var warning := [UnsupportedVersion(probe(first))];
    assert warning + [] == warning;
  }

  /** One turn of the loop below: the candidate at `i` is launched or passed over. */
  lemma ResolveStep(
    cands: seq<string>, probe: string -> string, tier: string -> Tier, args: seq<string>,
    i: nat, messages: seq<Message>, probed: seq<string>)
    requires i < |cands|
    ensures After(messages, probed, Resolve(cands[i..], probe, tier, args)) ==
      var version := probe(cands[i]);
      if Usable(tier, version) then
        Launch(cands[i], args, messages + BeforeLaunch(tier, version), probed + [cands[i]])
      else
        After(messages + PassedOver(version), probed + [cands[i]], Resolve(cands[i + 1..], probe, tier, args))
  {
    ResolveHead(cands[i..], probe, tier, args);
    assert cands[i..][1..] == cands[i + 1..];
    if !Usable(tier, probe(cands[i])) {
      AfterAfter(messages, probed, PassedOver(probe(cands[i])), [cands[i]], Resolve(cands[i + 1..], probe, tier, args));
    }
  }

  /** The search as the script runs it: a loop over the candidates that ends at the first `exec`. */
  method ResolveInterpreter(cands: seq<string>, probe: string -> string, tier: string -> Tier, args: seq<string>)
    returns (outcome: Outcome)
    ensures outcome == Resolve(cands, probe, tier, args)
  {
    var messages: seq<Message> := [];
    var probed: seq<string> := [];
    var i := 0;
    while i < |cands|
      invariant i <= |cands|
      invariant Resolve(cands, probe, tier, args) == After(messages, probed, Resolve(cands[i..], probe, tier, args))
    {
      var interpreter := cands[i];
      var version := probe(interpreter);   // get_python_version
      ResolveStep(cands, probe, tier, args, i, messages, probed);
      probed := probed + [interpreter];
      if version != "" {
        var status := tier(version);   // is_supported_version
        if status == Supported || status == Deprecated {
          if status == Deprecated {
            messages := messages + [DeprecatedVersion(version)];
          } else {
            assert messages + BeforeLaunch(tier, version) == messages;
          }
          return Launch(interpreter, args, messages, probed);   // exec
        }
        messages := messages + [UnsupportedVersion(version)];
      } else {
        assert messages + PassedOver(version) == messages;
      }
      i := i + 1;
    }
    outcome := Exit(1, messages + [NoInterpreterFound], probed);
  }

  // ---------------------------------------------------------------------------
  // Properties of the search
  // ---------------------------------------------------------------------------

  /** One unsupported-version warning per candidate that printed a version, in order. */
  function Rejections(cands: seq<string>, probe: string -> string): seq<Message>
  {
    if cands == [] then [] else PassedOver(probe(cands[0])) + Rejections(cands[1..], probe)
  }

  /**
   * The first usable candidate is launched with the arguments unchanged, after
   * one warning for each earlier candidate that printed an unsupported
   * version, and a deprecation warning only when its own version is
   * deprecated.  Nothing after it is probed.
   */
  lemma {:induction false} LaunchesFirstUsable(
    cands: seq<string>, probe: string -> string, tier: string -> Tier, args: seq<string>, i: nat)
    requires i < |cands| && Usable(tier, probe(cands[i]))
    requires forall j :: 0 <= j < i ==> !Usable(tier, probe(cands[j]))
    ensures Resolve(cands, probe, tier, args) ==
      Launch(cands[i], args,
        Rejections(cands[..i], probe) + BeforeLaunch(tier, probe(cands[i])), cands[..i + 1])
  {
    if i == 0 {
      ResolveHead(cands, probe, tier, args);
    } else {
      var rest := cands[1..];
      var before, warning := BeforeLaunch(tier, probe(cands[i])), PassedOver(probe(cands[0]));
      var rejected := Rejections(rest[..i - 1], probe);
      assert Resolve(cands, probe, tier, args) == After(warning, [cands[0]], Resolve(rest, probe, tier, args)) by {
        ResolveHead(cands, probe, tier, args);
        assert !Usable(tier, probe(cands[0]));
      }
      assert Resolve(rest, probe, tier, args) == Launch(cands[i], args, rejected + before, rest[..i]) by {
        assert rest[i - 1] == cands[i];
        forall j | 0 <= j < i - 1
          ensures !Usable(tier, probe(rest[j]))
        {
          assert rest[j] == cands[j + 1];
        }
        LaunchesFirstUsable(rest, probe, tier, args, i - 1);
      }
      assert Rejections(cands[..i], probe) == warning + rejected by {
        assert rest[..i - 1] == cands[..i][1..];
      }
      assert After(warning, [cands[0]], Launch(cands[i], args, rejected + before, rest[..i]))
        == Launch(cands[i], args, warning + (rejected + before), [cands[0]] + rest[..i]);
      assert warning + (rejected + before) == (warning + rejected) + before;
      assert [cands[0]] + rest[..i] == cands[..i + 1];
    }
  }

  /**
   * When no candidate is usable every candidate is probed, each one that
   * printed a version draws exactly one warning, and the script exits with
   * status 1 after "No appropriate Python interpreter found.".
   */
  lemma {:induction false} FailsWhenNoneUsable(
    cands: seq<string>, probe: string -> string, tier: string -> Tier, args: seq<string>)
    requires forall j :: 0 <= j < |cands| ==> !Usable(tier, probe(cands[j]))
    ensures Resolve(cands, probe, tier, args) == Exit(1, Rejections(cands, probe) + [NoInterpreterFound], cands)
  {
    if cands != [] {
      ResolveHead(cands, probe, tier, args);
      FailsWhenNoneUsable(cands[1..], probe, tier, args);
      assert [cands[0]] + cands[1..] == cands;
      assert PassedOver(probe(cands[0])) + (Rejections(cands[1..], probe) + [NoInterpreterFound])
        == Rejections(cands, probe) + [NoInterpreterFound];
    }
  }

  /**
   * The search launches exactly when some candidate is usable, and never
   * launches a candidate that is unusable or not in the list; it forwards the
   * arguments unchanged.
   */
  lemma {:induction false} LaunchIffUsable(
    cands: seq<string>, probe: string -> string, tier: string -> Tier, args: seq<string>)
    ensures Resolve(cands, probe, tier, args).Launch? <==>
      exists j :: 0 <= j < |cands| && Usable(tier, probe(cands[j]))
    ensures Resolve(cands, probe, tier, args).Launch? ==>
      Resolve(cands, probe, tier, args).interpreter in cands &&
      Usable(tier, probe(Resolve(cands, probe, tier, args).interpreter)) &&
      Resolve(cands, probe, tier, args).args == args
  {
    if cands != [] {
      ResolveHead(cands, probe, tier, args);
      LaunchIffUsable(cands[1..], probe, tier, args);
      if exists j :: 0 <= j < |cands| && Usable(tier, probe(cands[j])) {
        var j :| 0 <= j < |cands| && Usable(tier, probe(cands[j]));
        if j > 0 {
          assert cands[1..][j - 1] == cands[j];
        }
      }
      if exists j :: 0 <= j < |cands[1..]| && Usable(tier, probe(cands[1..][j])) {
        var j :| 0 <= j < |cands[1..]| && Usable(tier, probe(cands[1..][j]));
        assert cands[j + 1] == cands[1..][j];
      }
    }
  }

  /**
   * Candidates are probed in list order, each at most once, and the search
   * stops at the one it launches: the probes are a non-empty prefix of the
   * list ending with the launched candidate, or the whole list on failure.
   */
  lemma {:induction false} ProbesInOrder(
    cands: seq<string>, probe: string -> string, tier: string -> Tier, args: seq<string>)
    ensures Resolve(cands, probe, tier, args).probed <= cands
    ensures cands != [] ==> |Resolve(cands, probe, tier, args).probed| > 0
    ensures Resolve(cands, probe, tier, args).Exit? ==>
      Resolve(cands, probe, tier, args).probed == cands && Resolve(cands, probe, tier, args).code == 1
    ensures Resolve(cands, probe, tier, args).Launch? ==>
      var p := Resolve(cands, probe, tier, args).probed;
      |p| > 0 && p[|p| - 1] == Resolve(cands, probe, tier, args).interpreter
  {
    if cands != [] {
      ResolveHead(cands, probe, tier, args);
      ProbesInOrder(cands[1..], probe, tier, args);
      assert [cands[0]] + cands[1..] == cands;
    }
  }

  /** Everything the search writes goes to stderr. */
  lemma {:induction false} SearchWritesToStderr(
    cands: seq<string>, probe: string -> string, tier: string -> Tier, args: seq<string>)
    ensures forall m :: m in Resolve(cands, probe, tier, args).messages ==> StreamOf(m) == Stderr
  {
    if cands != [] {
      ResolveHead(cands, probe, tier, args);
      SearchWritesToStderr(cands[1..], probe, tier, args);
    }
  }
}
