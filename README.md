# cqlsh launcher, modelled in Dafny

The modelled file, `cqlsh.py`, is a POSIX `sh` launcher (line 18). It picks
a Python interpreter and then `exec`s the Python program `cqlsh.py` from its
own directory with the remaining command line (line 88). It works in three
steps:

1. **Override from the environment** (lines 20-23). A non-empty
   `CQLSH_PYTHON` becomes `USER_SPECIFIED_PYTHON`. The script never
   initialises that variable, so when `CQLSH_PYTHON` is empty, a
   `USER_SPECIFIED_PYTHON` inherited from the environment survives.
2. **Argument filter** (lines 26-51). Each `--python v` pair is taken out of
   the positional parameters, and the last `v` becomes the override. The scan
   stops at the first `--`. A `--python` with no value after it ends the
   script with status 1.
3. **Interpreter search** (lines 53-107). The search tries the override
   alone, or else `python3` and then `python`. Each candidate is asked for its
   `major.minor` version, and `is_supported_version` classifies the answer:
   - 3.8-3.11 is supported;
   - 3.6-3.7 is deprecated: a warning is printed, but the candidate is still
     used;
   - anything else is unsupported: a warning is printed and the next
     candidate is tried.

   The first supported or deprecated candidate is `exec`ed with the filtered
   arguments. If no candidate qualifies, the script prints a message and
   exits with status 1.

The Dafny modules follow these parts:

| file | module | contents |
|---|---|---|
| `optional.dfy` | `Optional` | `Option` |
| `messages.dfy` | `Messages` | the four lines the script prints, and their streams |
| `argument_filter.dfy` | `ArgumentFilter` | the filter. It has a specification function `Filter` and the imperative loop `FilterArguments`, which shifts and appends the positional list as the shell does. |
| `version_policy.dfy` | `VersionPolicy` | `is_supported_version`: the two parameter expansions, the integer reading of test(1) operands, and the classifier `Classify` |
| `interpreter_resolver.dfy` | `InterpreterResolver` | the candidate search. It has a specification function `Resolve` and the loop `ResolveInterpreter`. Both take the version probe and the classifier as parameters. |
| `launcher.dfy` | `Launcher` | the whole script (`Script`, `RunScript`) and its end-to-end properties |

Running a candidate is modelled as a function `probe` from the candidate
name to the text it prints. The text `""` means the candidate could not be
run.

Some behaviour of the script is easy to misread. The model follows what the
script does:

- **`--` is not forwarded.** The loop has already shifted `--` off when it
  breaks. The positional list is then the tokens after `--`, followed by the
  tokens kept before it. The kept tokens move behind the tail.
- **Both failures exit with status 1.** This holds for a missing `--python`
  value (line 50) and for "no interpreter found" (line 107).
- **The missing-value message goes to stdout** (line 49). The warnings and
  the final failure go to stderr.
- **`--python ""` empties the override.** The default candidates are then
  searched, even when `CQLSH_PYTHON` is set.
- **The minor part is read by test(1)** as dash's `test` reads an integer operand (with `strtoimax` and `isspace`):
  - optional white space, an optional sign, at least one digit, optional
    white space;
  - anything else makes the comparison fail, so the version is unsupported;
  - so `3.08` and `3. 9` are supported, while `3.9.1` and `3.x` are not.

## Model

| member | source | states |
|---|---|---|
| ArgumentFilter.FilterArguments | cqlsh.py:26-51 | The shell loop gives exactly `Filter`: the override and the new positional list, or the missing-value error. It works by `shift`, then `set -- "$@" "$arg"` for kept tokens, and `break` at `--`. |
| ArgumentFilter.Step | cqlsh.py:30-45 | One token other than `--`: `--python` sets the flag; a token while the flag is set becomes the override and clears it; any other token is kept. Its consequences are stated by `RunPlain`, `RunAwaiting`, `OptionThenValue` and `ScanByPosition`. |
| ArgumentFilter.Run | cqlsh.py:28-46 | The scan of a list of tokens, token by token from the left. Stated by `RunAppend`, `KeptIgnoresOverride` and `ScanByPosition`. |
| ArgumentFilter.Filter | cqlsh.py:26-51 | The filter as a function: the scan of the tokens before the first `--`, then the check at line 48. `FilterArguments` is proved equal to it. Its behaviour is stated by `ForwardedWithoutSeparator`, `SeparatorStopsScan`, `LastValueWins`, `RemovesOptionAndValue` and `TrailingOptionIsMissingValue`. |
| ArgumentFilter.Separator | cqlsh.py:28-36 | The scan stops at the first `--`: the result is that position, or there is none. |
| ArgumentFilter.Scanned | cqlsh.py:28-36 | The examined tokens are a prefix with no `--`, followed by `--` when the prefix is not the whole list. |
| ArgumentFilter.RunAppend | cqlsh.py:28-46 | Scanning `a + b` is scanning `b` from the state that `a` leaves. |
| ArgumentFilter.RunPlain | cqlsh.py:37-43 | Tokens other than `--python`, met while no value is expected, are appended to the kept list unchanged. |
| ArgumentFilter.KeptIgnoresOverride | cqlsh.py:31-43 | Neither the kept tokens nor the "value expected" flag depend on the override the scan starts from. |
| ArgumentFilter.RunAwaiting | cqlsh.py:31-39 | A value is expected after a scan exactly when its last token is `--python`. |
| ArgumentFilter.FilterWithoutSeparator | cqlsh.py:28-51 | Without `--`, every token is scanned, and the error occurs exactly when a value is still expected. |
| ArgumentFilter.ScanByPosition | cqlsh.py:28-46 | After n tokens, the scan has kept exactly the tokens that are neither `--python` nor right after one, in order. The flag is set iff token n-1 is `--python`, and the override is the last value taken. |
| ArgumentFilter.ForwardedWithoutSeparator | cqlsh.py:28-51 | Without `--`, the filter fails iff the last token is `--python`. Otherwise it forwards the surviving tokens in order, and the override is the last value. |
| ArgumentFilter.SelectedDropsOption | cqlsh.py:31-33 | In a command line without `--`, `--python` itself is never among the forwarded tokens (after a `--` the tail is forwarded unchanged, see `SeparatorStopsScan`). |
| ArgumentFilter.RemovesOptionAndValue | cqlsh.py:26-46 | One `--python v` among plain tokens: exactly the two tokens are removed, the others keep their order, and `v` is the override. |
| ArgumentFilter.LastValueWins | cqlsh.py:31-40 | In a command line without `--`, the last `--python v` decides the override, whatever the earlier options or the initial override were. |
| ArgumentFilter.OptionThenValue | cqlsh.py:31-40 | `--python v` sets the override to `v`, clears the flag and keeps nothing. |
| ArgumentFilter.RepeatedOptionIsNotAValue | cqlsh.py:31-33 | `--python --python x` takes `x` as the interpreter: a second `--python` is never a value. |
| ArgumentFilter.TrailingOptionIsMissingValue | cqlsh.py:48-51 | A `--python` as the last token, with no `--` before it, is the fatal error. |
| ArgumentFilter.SeparatorStopsScan | cqlsh.py:28-36 | At the first `--`, the `--` is dropped. The tail is forwarded unexamined, ahead of the tokens kept before it. A pending `--python` still fails. |
| ArgumentFilter.OptionBeforeSeparatorIsMissingValue | cqlsh.py:31-51 | `--python --` is the fatal error, whatever follows. |
| VersionPolicy.LastDot | cqlsh.py:63 | The position of the last `.`, or none when there is no dot. |
| VersionPolicy.FirstDot | cqlsh.py:64 | The position of the first `.`, or none when there is no dot. |
| VersionPolicy.MajorVersion | cqlsh.py:63 | `${version%.*}`: the whole text when there is no dot. When there is a dot, the result differs from the text: it is the text before a dot that has no dot after it, i.e. before the last dot. |
| VersionPolicy.MinorVersion | cqlsh.py:64 | `${version#*.}`: the whole text when there is no dot. When there is a dot, the result differs from the text: it is the text after a dot that has no dot before it, i.e. after the first dot. |
| VersionPolicy.DigitValue | cqlsh.py:66 | A decimal digit has a value below 10. |
| VersionPolicy.DropLeadingSpace | cqlsh.py:66 | Removes exactly the leading white space: the result is a suffix that starts with a non-space. |
| VersionPolicy.DropTrailingSpace | cqlsh.py:66 | Removes exactly the trailing white space: the result is a prefix that ends with a non-space. |
| VersionPolicy.SignedValue | cqlsh.py:66 | Defined iff the text is digits, or a sign followed by digits. The value is the digits' decimal value, negated after `-`. |
| VersionPolicy.TestInteger | cqlsh.py:66 | An operand that test(1) accepts is non-empty and made only of white space, digits and signs. Acceptance and value are given by `TestIntegerAccepts` and `TestIntegerAccepted`. |
| VersionPolicy.DropLeadingSpaceAt | cqlsh.py:66 | Leading white space is dropped up to the first non-space character. |
| VersionPolicy.DropTrailingSpaceAt | cqlsh.py:66 | Trailing white space is dropped back to the last non-space character. |
| VersionPolicy.TrimBetween | cqlsh.py:66 | Trimming removes exactly the white space around the non-space part. |
| VersionPolicy.TrimOperand | cqlsh.py:66 | Trimming an operand leaves its sign and digits. |
| VersionPolicy.SignedOperand | cqlsh.py:66 | The sign and the digits of an operand read as its value. |
| VersionPolicy.TestIntegerAccepts | cqlsh.py:66 | test(1) accepts any white space, an optional sign, at least one digit, and white space. It reads such an operand as the digits' value, negated after `-`. |
| VersionPolicy.TestIntegerAccepted | cqlsh.py:66 | Conversely, every operand test(1) accepts has that shape, and the value read is the value of its sign and digits. |
| VersionPolicy.OperandOfSigned | cqlsh.py:66 | A signed number between white space is an operand of the accepted shape, with the same value. |
| VersionPolicy.LeadingZeroValue | cqlsh.py:66 | A leading zero does not change the decimal value of a digit string. |
| VersionPolicy.TestIntegerOfZeroPadded | cqlsh.py:66 | test(1) reads the rendering of n after one leading zero as n (so "08" reads as 8). |
| VersionPolicy.TestIntegerOfSpaced | cqlsh.py:66 | test(1) reads the rendering of n after any white space as n (so " 9" reads as 9). |
| VersionPolicy.ZeroEightIsEight | cqlsh.py:66 | test(1) reads "08" as 8. |
| VersionPolicy.SpaceNineIsNine | cqlsh.py:66 | test(1) reads " 9" as 9. |
| VersionPolicy.NotAnInteger | cqlsh.py:66 | test(1) does not accept "x" as an integer. |
| VersionPolicy.Decimal | cqlsh.py:56 | The probe's rendering of a number is a non-empty digit string without leading zeros (it starts with `0` only for 0), one digit long iff the number is below 10. |
| VersionPolicy.DecimalRoundTrip | cqlsh.py:56 | Reading back the rendering of n gives n. |
| VersionPolicy.TestIntegerOfDecimal | cqlsh.py:66 | test(1) reads the rendering of n as n. |
| VersionPolicy.DecimalIsThree | cqlsh.py:66 | The rendering of n is "3" iff n is 3. |
| VersionPolicy.SplitAtOnlyDot | cqlsh.py:63-64 | For a version with one dot, the two expansions give back the two sides. |
| VersionPolicy.ClassifyRendered | cqlsh.py:61-74 | Every version the probe can print, `{major}.{minor}`, gets the policy's tier: 3.8-3.11 supported, 3.6-3.7 deprecated, everything else unsupported. |
| VersionPolicy.ClassifyExamples | cqlsh.py:65-73 | 3.9 is supported, 3.7 is deprecated, 2.7 and 3.12 are unsupported. |
| VersionPolicy.Classify | cqlsh.py:61-74 | `is_supported_version` as written: the major part compared with "3" and the minor part read by test(1). Its tiers are stated by `ClassifyRendered` (every `{major}.{minor}` gets the policy tier), `UsableParts`, `UsableVersionShape`, `ClassifyThreeDot`, `DotlessUnusable` and `LenientVersions`. |
| VersionPolicy.ThreeDotSplits | cqlsh.py:63-64 | "3.08", "3. 9" and "3.x" split into "3" and the text after the dot. |
| VersionPolicy.LeadingZeroVersion | cqlsh.py:63-67 | "3.08" is supported. |
| VersionPolicy.LeadingSpaceVersion | cqlsh.py:63-67 | "3. 9" is supported. |
| VersionPolicy.SecondDotVersion | cqlsh.py:63-72 | "3.9.1" is unsupported: the part before the last dot is "3.9". |
| VersionPolicy.NonNumericMinor | cqlsh.py:64-72 | "3.x" is unsupported: test(1) does not accept "x". |
| VersionPolicy.LenientVersions | cqlsh.py:61-74 | "3.08" and "3. 9" are supported; "3.9.1" and "3.x" are not. |
| VersionPolicy.UsableParts | cqlsh.py:66-70 | A usable version has major part "3" and a minor part that test(1) reads as 6-11. |
| VersionPolicy.DotlessUnusable | cqlsh.py:63-66 | A version with no dot is never usable, not even "3". |
| VersionPolicy.MajorThreeShape | cqlsh.py:63-64 | If the part before the last dot is "3", the version starts with "3.", has no other dot, and its minor part is the rest. |
| VersionPolicy.UsableVersionShape | cqlsh.py:61-74 | A usable version is "3." plus a dotless tail that test(1) reads as an integer from 6 to 11. |
| VersionPolicy.ClassifyThreeDot | cqlsh.py:61-74 | Conversely, "3." plus a dotless tail is supported when test(1) reads the tail as 8-11, deprecated for 6-7, and unsupported for any other value or when the tail is no integer. |
| Messages.WarningEndsWithVersion | cqlsh.py:84-91 | A warning ends with one blank and then the version exactly as the candidate printed it. |
| Messages.Text | cqlsh.py:49-106 | The four lines, with the texts of lines 49, 85, 91 and 106; `echo` joins the lead and the version with one blank. Stated by `WarningEndsWithVersion`. |
| Messages.StreamOf | cqlsh.py:49-106 | The missing-value line goes to stdout (line 49); the others go to stderr (`>&2` at lines 85, 91 and 106). Stated by `InterpreterResolver.SearchWritesToStderr` and `Launcher.StdoutOnlyForMissingValue`. |
| InterpreterResolver.ResolveHead | cqlsh.py:80-93 | One candidate: it is launched when it printed a usable version, with a deprecation warning only when deprecated. Otherwise it is passed over, with one warning iff it printed something. |
| InterpreterResolver.RejectThenLaunch | cqlsh.py:97-104 | An unsupported first candidate draws one warning, and a usable second candidate is then launched, with a deprecation warning only if it is deprecated. |
| InterpreterResolver.ResolveStep | cqlsh.py:80-93 | One turn of the search loop, stated against the history written so far. |
| InterpreterResolver.ResolveInterpreter | cqlsh.py:76-107 | The loop over the candidates gives exactly `Resolve`. It ends at the first `exec`, or prints the final message and exits with 1. |
| InterpreterResolver.LaunchesFirstUsable | cqlsh.py:76-104 | The first usable candidate is launched with the arguments unchanged. It comes after one warning per earlier candidate that printed a version, and a deprecation warning only for itself. Nothing after it is probed. |
| InterpreterResolver.FailsWhenNoneUsable | cqlsh.py:91-107 | When no candidate is usable, all are probed, each printed version draws one warning, and the script exits 1 after "No appropriate Python interpreter found.". |
| InterpreterResolver.LaunchIffUsable | cqlsh.py:82-89 | The search launches iff some candidate is usable. The launched one is in the list and usable, and the arguments are unchanged. |
| InterpreterResolver.ProbesInOrder | cqlsh.py:97-104 | Candidates are probed in list order. The probes form a non-empty prefix that ends with the launched candidate, or are the whole list on failure, with status 1. |
| InterpreterResolver.Candidates | cqlsh.py:97-103 | The override alone when it is non-empty, else `python3` then `python`. Stated by `Launcher.OverrideIsSoleCandidate` and `Launcher.DefaultsInOrder`. |
| InterpreterResolver.Resolve | cqlsh.py:76-107 | The search as a function: launch the first usable candidate, or exit 1. `ResolveInterpreter` is proved equal to it, and it is characterised by `LaunchesFirstUsable`, `FailsWhenNoneUsable`, `LaunchIffUsable` and `ProbesInOrder`. |
| InterpreterResolver.SearchWritesToStderr | cqlsh.py:85-106 | Every message the search writes goes to stderr. |
| Launcher.RunScript | cqlsh.py:20-107 | The script, statement by statement, gives exactly `Script`. |
| Launcher.InitialOverride | cqlsh.py:20-23 | A non-empty `CQLSH_PYTHON`, else the inherited `USER_SPECIFIED_PYTHON`. Stated by `EnvironmentChoosesInterpreter` and `CommandLineBeatsEnvironment`. |
| Launcher.Script | cqlsh.py:20-107 | The whole script as a function. `RunScript` is proved equal to it; the end-to-end lemmas below state its behaviour. |
| Launcher.StdoutOnlyForMissingValue | cqlsh.py:48-106 | A message goes to stdout exactly when the filter failed; everything else is written to stderr. |
| Launcher.MissingValueProbesNothing | cqlsh.py:48-51 | A `--python` without a value, at the end or before `--`, exits 1 with the stdout message and probes no interpreter. |
| Launcher.OverrideIsSoleCandidate | cqlsh.py:97-99 | A non-empty override is the only candidate. It is launched with the filtered arguments iff usable; otherwise the script fails after at most one warning. |
| Launcher.DefaultsInOrder | cqlsh.py:100-103 | Without an override, `python3` is probed, then `python`, and nothing else. Only one of them can be launched. |
| Launcher.NonEmptyPrefixOfPair | cqlsh.py:101 | The only non-empty prefixes of the two defaults are `python3` alone, or both. |
| Launcher.CommandLineBeatsEnvironment | cqlsh.py:20-40 | With `--python v` on a command line without `--`, the environment makes no difference to the outcome. |
| Launcher.EnvironmentChoosesInterpreter | cqlsh.py:20-23 | With no `--python` and no `--`, a non-empty `CQLSH_PYTHON` is the only candidate, and all arguments are forwarded. |
| Launcher.EmptyValueFallsBack | cqlsh.py:97-103 | `--python ""` searches the default candidates with no arguments, whatever the environment. |
| Launcher.MissingOverrideFails | cqlsh.py:97-107 | An override that cannot run gives no warning, only the final message, and status 1. |
| Launcher.SupportedAlone | cqlsh.py:82-89 | A candidate printing 3.9 is launched with no message. |
| Launcher.DeprecatedAlone | cqlsh.py:83-88 | A candidate printing 3.7 is launched after one deprecation warning naming 3.7. |
| Launcher.TooOldThenSupported | cqlsh.py:91-103 | `python3` printing 2.7 draws one warning; then `python` printing 3.9 is launched. |
| Launcher.TooNewThenSupported | cqlsh.py:91-103 | `python3` printing 3.12 draws one warning; then `python` printing 3.9 is launched. |

## Left out

- Running a candidate (lines 54-58) is not modelled. The candidate's output is the `probe` parameter, which is "" when the candidate fails. The model does not run the candidate or suppress its stderr.
- The unquoted `$interpreter` at lines 56 and 88 undergoes word splitting and globbing. The model does not capture this: a candidate is one word.
- `echo` may interpret backslashes in the version text in some shells. This happens at line 57 (`get_python_version`) and in the warnings at lines 85 and 91. The model takes the probe's text, and the version inside a warning, as printed.
- Command substitution strips trailing newlines. The probe result is assumed to be already stripped.
- `exec` at line 88 is the `Launch` outcome. Two things are not modelled:
  - the second run of the interpreter that computes the directory of the real cqlsh program through `realpath`;
  - the path built from it.
- The `exit` at line 89 is unreachable after a successful `exec`. A failing `exec` is not modelled.
- test(1) prints a diagnostic on stderr when the minor part is not an integer (for example `3.x`). The model does not include it: such a version is simply unsupported.
- Operands too large for the shell's integer type are not modelled: test(1) reports them as errors, and they are unsupported either way. Other `/bin/sh` implementations are not modelled either: POSIX leaves the surrounding white space unspecified, some shells accept less of it than dash, and some (mksh, OpenBSD ksh) read `-ge` operands as arithmetic expressions and so accept more.
- The environment is a parameter (`Launcher.Environment`). Variables that are unset and empty are treated alike, as `[ -n ]` does.
- Assigning `interpreter` and `version` as global variables inside the functions has no visible effect, and is not modelled.
