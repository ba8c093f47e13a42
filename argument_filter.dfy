/**
 * The argument filter of cqlsh.py (lines 26-51): it takes the `--python`
 * option and its value out of the positional parameters, stops at `--`, and
 * refuses a `--python` that is left without a value.
 *
 * The shell walks a snapshot of the original parameters (`for arg do`) while
 * it rotates the live list: every iteration drops the head (`shift`) and, for
 * a token it keeps, appends it at the end (`set -- "$@" "$arg"`).  When the
 * loop runs to the end the kept tokens are left in their original order; when
 * it breaks at `--` (already shifted away) the live list is the unexamined
 * tail followed by the tokens kept so far.
 */
module ArgumentFilter {
  import opened Optional

  const PythonOption := "--python"
  const EndOfOptions := "--"

  /**
   * What the loop has built after some tokens: the kept tokens, the flag
   * USER_SPECIFIED_PYTHON_OPTION ("a value is expected next") and the
   * variable USER_SPECIFIED_PYTHON.
   */
  datatype ScanState = ScanState(kept: seq<string>, awaiting: bool, override: string)

  /** The state before the first token; the override starts from the environment. */
  function Start(initial: string): ScanState
  {
    ScanState([], false, initial)
  }

  /** One token other than `--`: the `--python` arm and the catch-all arm of the `case`. */
  function Step(st: ScanState, arg: string): ScanState
  {
    if arg == PythonOption then st.(awaiting := true)
    else if st.awaiting then st.(awaiting := false, override := arg)
    else st.(kept := st.kept + [arg])
  }

  /** The state after a run of tokens none of which is `--`, token by token from the left. */
  function Run(st: ScanState, args: seq<string>): ScanState
  {
    if args == [] then st
    else Step(Run(st, args[..|args| - 1]), args[|args| - 1])
  }

  /** Position of the first `--`, where the scan stops. */
  function Separator(args: seq<string>): (r: Option<nat>)
    ensures r.None? ==> EndOfOptions !in args
    ensures r.Some? ==> r.value < |args| && args[r.value] == EndOfOptions
    ensures r.Some? ==> EndOfOptions !in args[..r.value]
  {
    if args == [] then None
    else if args[0] == EndOfOptions then Some(0)
    else match Separator(args[1..])
      case None => None
      case Some(k) =>
        assert args[..k + 1] == [args[0]] + args[1..][..k];
        Some(k + 1)
  }

  /** The tokens the loop examines: everything before the first `--`. */
  function Scanned(args: seq<string>): (s: seq<string>)
    ensures s <= args && EndOfOptions !in s
    ensures |s| < |args| ==> args[|s|] == EndOfOptions
  {
    match Separator(args)
    case None => args
    case Some(k) => args[..k]
  }

  /** Outcome of lines 26-51: the override and the new positional parameters, or the fatal error. */
  datatype Filtered = Forward(override: string, args: seq<string>) | MissingInterpreterPath

  /** Specification of the filter: the scan of the examined tokens, then the check at line 48. */
  function Filter(args: seq<string>, initial: string): Filtered
  {
    var scanned := Scanned(args);
    var st := Run(Start(initial), scanned);
    if st.awaiting then MissingInterpreterPath
    else if |scanned| < |args| then Forward(st.override, args[|scanned| + 1..] + st.kept)
    else Forward(st.override, st.kept)
  }

  /**
   * Lines 27-51 as the shell runs them: the positional parameters are a list
   * that is shifted and appended to in place while the loop walks the
   * original tokens.
   */
  method FilterArguments(args: seq<string>, initial: string) returns (result: Filtered)
    ensures result == Filter(args, initial)
  {
    var params := args;        // "$@"
    var awaiting := false;     // USER_SPECIFIED_PYTHON_OPTION
    var override := initial;   // USER_SPECIFIED_PYTHON
    var i := 0;
    while i < |args|
      invariant i <= |args|
      invariant EndOfOptions !in args[..i]
      invariant params == args[i..] + Run(Start(initial), args[..i]).kept
      invariant awaiting == Run(Start(initial), args[..i]).awaiting
      invariant override == Run(Start(initial), args[..i]).override
    {
      var arg := args[i];
      ghost var kept := Run(Start(initial), args[..i]).kept;
      RunNext(args, i, initial);
      params := params[1..];   // shift
      assert params == args[i + 1..] + kept;
      if arg == PythonOption {
        awaiting := true;
      } else if arg == EndOfOptions {
        FilterAtSeparator(args, i, initial);
        break;
      } else if awaiting {
        awaiting, override := false, arg;
      } else {
        params := params + [arg];   // set -- "$@" "$arg"
      }
      i := i + 1;
    }
    if i == |args| {
      assert args[..i] == args;
      FilterWithoutSeparator(args, initial);
    }
    if awaiting {
      result := MissingInterpreterPath;
    } else {
      result := Forward(override, params);
    }
  }

  /** The scan of the first `i + 1` tokens is one step after the scan of the first `i`. */
  lemma RunNext(args: seq<string>, i: nat, initial: string)
    requires i < |args|
    ensures Run(Start(initial), args[..i + 1]) == Step(Run(Start(initial), args[..i]), args[i])
    ensures EndOfOptions !in args[..i] && args[i] != EndOfOptions ==> EndOfOptions !in args[..i + 1]
  {
    assert args[..i + 1][..i] == args[..i];
    assert args[..i + 1] == args[..i] + [args[i]];
  }

  /** When the first `--` is at `i`, the filter is decided by the scan of the tokens before it. */
  lemma FilterAtSeparator(args: seq<string>, i: nat, initial: string)
    requires i < |args| && args[i] == EndOfOptions && EndOfOptions !in args[..i]
    ensures Filter(args, initial) ==
      var st := Run(Start(initial), args[..i]);
      if st.awaiting then MissingInterpreterPath else Forward(st.override, args[i + 1..] + st.kept)
  {
    assert args[i] in args;
    var k := Separator(args).value;
    forall j | 0 <= j < k
      ensures args[j] != EndOfOptions
    {
      assert args[..k][j] == args[j];
    }
    forall j | 0 <= j < i
      ensures args[j] != EndOfOptions
    {
      assert args[..i][j] == args[j];
    }
  }

  // ---------------------------------------------------------------------------
  // Composing runs
  // ---------------------------------------------------------------------------

  /** Scanning `a + b` is scanning `a`, then `b` from where `a` left off. */
  lemma {:induction false} RunAppend(st: ScanState, a: seq<string>, b: seq<string>)
    ensures Run(st, a + b) == Run(Run(st, a), b)
    decreases |b|
  {
    if b == [] {
      assert a + b == a;
    } else {
      var b' := b[..|b| - 1];
      assert (a + b)[..|a + b| - 1] == a + b';
      RunAppend(st, a, b');
    }
  }

  /** Tokens other than `--python`, met while no value is expected, are kept as they are. */
  lemma {:induction false} RunPlain(st: ScanState, ts: seq<string>)
    requires !st.awaiting
    requires PythonOption !in ts
    ensures Run(st, ts) == st.(kept := st.kept + ts)
    decreases |ts|
  {
    if ts != [] {
      var ts' := ts[..|ts| - 1];
      assert PythonOption !in ts';
      RunPlain(st, ts');
      assert st.kept + ts' + [ts[|ts| - 1]] == st.kept + ts;
    }
  }

  /** What the scan keeps, and whether it expects a value, does not depend on the override it started from. */
  lemma {:induction false} KeptIgnoresOverride(st1: ScanState, st2: ScanState, ts: seq<string>)
    requires st1.kept == st2.kept && st1.awaiting == st2.awaiting
    ensures Run(st1, ts).kept == Run(st2, ts).kept
    ensures Run(st1, ts).awaiting == Run(st2, ts).awaiting
    decreases |ts|
  {
    if ts != [] {
      KeptIgnoresOverride(st1, st2, ts[..|ts| - 1]);
    }
  }

  /** A value is expected exactly when the last examined token is `--python`. */
  lemma RunAwaiting(st: ScanState, ts: seq<string>)
    requires ts != []
    ensures Run(st, ts).awaiting <==> ts[|ts| - 1] == PythonOption
  {
  }

  /** Filtering an argument list that holds no `--`. */
  lemma FilterWithoutSeparator(args: seq<string>, initial: string)
    requires EndOfOptions !in args
    ensures Filter(args, initial) ==
      var st := Run(Start(initial), args);
      if st.awaiting then MissingInterpreterPath else Forward(st.override, st.kept)
  {
    assert Scanned(args) == args;
  }

  // ---------------------------------------------------------------------------
  // Properties of the filter
  // ---------------------------------------------------------------------------

  /** Whether the token at `i` survives: it is not `--python` and is not the value of one. */
  predicate KeptAt(args: seq<string>, i: nat)
    requires i < |args|
  {
    args[i] != PythonOption && (i == 0 || args[i - 1] != PythonOption)
  }

  /** Whether the token at `i` is taken as the value of the `--python` just before it. */
  predicate ValueAt(args: seq<string>, i: nat)
    requires i < |args|
  {
    args[i] != PythonOption && i > 0 && args[i - 1] == PythonOption
  }

  /** The surviving tokens among the first `n`, in their original order. */
  function Selected(args: seq<string>, n: nat): (s: seq<string>)
    requires n <= |args|
    ensures |s| <= n
  {
    if n == 0 then []
    else Selected(args, n - 1) + (if KeptAt(args, n - 1) then [args[n - 1]] else [])
  }

  /** The last value given to `--python` among the first `n` tokens, or the initial override. */
  function LastValue(args: seq<string>, n: nat, initial: string): string
    requires n <= |args|
  {
    if n == 0 then initial
    else if ValueAt(args, n - 1) then args[n - 1]
    else LastValue(args, n - 1, initial)
  }

  /**
   * The scan, position by position: after `n` tokens it has kept exactly the
   * tokens that are neither `--python` nor the token right after one, in their
   * order; it expects a value exactly when token n-1 is `--python`; and the
   * override is the last value taken.
   */
  lemma {:induction false} ScanByPosition(args: seq<string>, n: nat, initial: string)
    requires n <= |args|
    ensures Run(Start(initial), args[..n]) ==
      ScanState(Selected(args, n), n > 0 && args[n - 1] == PythonOption, LastValue(args, n, initial))
  {
    if n > 0 {
      assert args[..n][..n - 1] == args[..n - 1];
      ScanByPosition(args, n - 1, initial);
    }
  }

  /**
   * Without `--`, the filter fails exactly when the last token is `--python`;
   * otherwise it forwards every token that is neither `--python` nor the value
   * after one, in the original order, and the override is the last value.
   */
  lemma ForwardedWithoutSeparator(args: seq<string>, initial: string)
    requires EndOfOptions !in args
    ensures Filter(args, initial).MissingInterpreterPath? <==>
      |args| > 0 && args[|args| - 1] == PythonOption
    ensures Filter(args, initial).Forward? ==>
      Filter(args, initial).args == Selected(args, |args|) &&
      Filter(args, initial).override == LastValue(args, |args|, initial)
  {
    FilterWithoutSeparator(args, initial);
    assert args[..|args|] == args;
    ScanByPosition(args, |args|, initial);
  }

  /** `--python` is never forwarded when the list holds no `--`. */
  lemma {:induction false} SelectedDropsOption(args: seq<string>, n: nat)
    requires n <= |args|
    ensures PythonOption !in Selected(args, n)
  {
    if n > 0 {
      SelectedDropsOption(args, n - 1);
    }
  }

  /**
   * One `--python v` among plain tokens: exactly those two tokens are
   * removed, the rest keep their order, and `v` becomes the override.
   */
  lemma RemovesOptionAndValue(pre: seq<string>, v: string, post: seq<string>, initial: string)
    requires EndOfOptions !in pre && EndOfOptions !in post
    requires PythonOption !in pre && PythonOption !in post
    requires v != PythonOption && v != EndOfOptions
    ensures Filter(pre + [PythonOption, v] + post, initial) == Forward(v, pre + post)
  {
    LastValueWins(pre, v, post, initial);
    RunPlain(Start(initial), pre);
  }

  /**
   * The last `--python v` decides the override, whatever came before it,
   * including an earlier override and a `--python` still waiting for a value:
   * a second `--python` is never taken as a value.
   */
  lemma LastValueWins(pre: seq<string>, v: string, post: seq<string>, initial: string)
    requires EndOfOptions !in pre && EndOfOptions !in post
    requires PythonOption !in post
    requires v != PythonOption && v != EndOfOptions
    ensures Filter(pre + [PythonOption, v] + post, initial) ==
      Forward(v, Run(Start(initial), pre).kept + post)
  {
    var args := pre + [PythonOption, v] + post;
    var st := Run(Start(initial), pre);
    var valued := st.(awaiting := false, override := v);
    assert EndOfOptions !in args by {
      forall i | 0 <= i < |args| ensures args[i] != EndOfOptions {
        if i < |pre| { assert args[i] == pre[i]; }
        else if i >= |pre| + 2 { assert args[i] == post[i - |pre| - 2]; }
      }
    }
    FilterWithoutSeparator(args, initial);
    OptionThenValue(st, v);
    RunAppend(Start(initial), pre, [PythonOption, v]);
    RunAppend(Start(initial), pre + [PythonOption, v], post);
    RunPlain(valued, post);
  }

  /** `--python v` sets the override to `v` and leaves the kept tokens alone. */
  lemma OptionThenValue(st: ScanState, v: string)
    requires v != PythonOption
    ensures Run(st, [PythonOption, v]) == st.(awaiting := false, override := v)
  {
    assert [PythonOption, v][..1] == [PythonOption];
    assert [PythonOption][..0] == [];
    assert Run(st, [PythonOption]) == st.(awaiting := true);
    assert Run(st, [PythonOption, v]) == Step(st.(awaiting := true), v);
  }

  /** `--python --python x` takes `x` as the interpreter and forwards nothing. */
  lemma RepeatedOptionIsNotAValue(initial: string)
    ensures Filter([PythonOption, PythonOption, "x"], initial) == Forward("x", [])
  {
    LastValueWins([PythonOption], "x", [], initial);
    assert [PythonOption] + [PythonOption, "x"] + [] == [PythonOption, PythonOption, "x"];
  }

  /** A trailing `--python` is the fatal error, whatever comes before it, if that holds no `--`. */
  lemma TrailingOptionIsMissingValue(pre: seq<string>, initial: string)
    requires EndOfOptions !in pre
    ensures Filter(pre + [PythonOption], initial) == MissingInterpreterPath
  {
    FilterWithoutSeparator(pre + [PythonOption], initial);
    RunAwaiting(Start(initial), pre + [PythonOption]);
  }

  /**
   * At the first `--` the scan stops: the `--` is dropped, every token after
   * it is forwarded unexamined (a `--python` among them too), and they come
   * BEFORE the tokens kept earlier.  If a value was still expected, the
   * filter fails.
   */
  lemma SeparatorStopsScan(pre: seq<string>, post: seq<string>, initial: string)
    requires EndOfOptions !in pre
    ensures Filter(pre + [EndOfOptions] + post, initial) ==
      match Filter(pre, initial)
      case MissingInterpreterPath => MissingInterpreterPath
      case Forward(o, kept) => Forward(o, post + kept)
  {
    var args := pre + [EndOfOptions] + post;
    assert args[|pre|] == EndOfOptions;
    assert args[..|pre|] == pre;
    assert Separator(args) == Some(|pre|);
    assert args[|pre| + 1..] == post;
    FilterWithoutSeparator(pre, initial);
  }

  /** Appending a token other than `--` adds no separator. */
  lemma NoSeparatorAppended(pre: seq<string>, token: string)
    requires EndOfOptions !in pre && token != EndOfOptions
    ensures EndOfOptions !in pre + [token]
  {
    assert forall k :: 0 <= k < |pre| + 1 ==> (pre + [token])[k] == (if k < |pre| then pre[k] else token);
  }

  /** `--python --` leaves the option without a value: the filter fails, whatever follows. */
  lemma OptionBeforeSeparatorIsMissingValue(pre: seq<string>, post: seq<string>, initial: string)
    requires EndOfOptions !in pre
    ensures Filter(pre + [PythonOption, EndOfOptions] + post, initial) == MissingInterpreterPath
  {
    var front := pre + [PythonOption];
    assert pre + [PythonOption, EndOfOptions] + post == front + [EndOfOptions] + post;
    NoSeparatorAppended(pre, PythonOption);
    TrailingOptionIsMissingValue(pre, initial);
    SeparatorStopsScan(front, post, initial);
  }
}
