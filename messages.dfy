/** The lines cqlsh.py writes, and the stream each one goes to. */
module Messages {
  datatype Stream = Stdout | Stderr

  datatype Message =
    | MissingPythonValue                    // line 49, on stdout
    | DeprecatedVersion(version: string)    // line 85
    | UnsupportedVersion(version: string)   // line 91
    | NoInterpreterFound                    // line 106

  function StreamOf(m: Message): Stream
  {
    if m.MissingPythonValue? then Stdout else Stderr
  }

  const MissingValueLine := "You must specify a python interpreter path with the --python option"
  const DeprecatedLead := "Warning: using deprecated version of Python:"
  const UnsupportedLead := "Warning: unsupported version of Python, required 3.6-3.11 but found"
  const NotFoundLine := "No appropriate Python interpreter found."

  /** The text `echo` prints; its two operands are joined by one blank. */
  function Text(m: Message): string
  {
    match m
    case MissingPythonValue => MissingValueLine
    case DeprecatedVersion(v) => DeprecatedLead + " " + v
    case UnsupportedVersion(v) => UnsupportedLead + " " + v
    case NoInterpreterFound => NotFoundLine
  }

  /** The fixed part a warning starts with. */
  function Lead(m: Message): string
    requires m.DeprecatedVersion? || m.UnsupportedVersion?
  {
    if m.DeprecatedVersion? then DeprecatedLead else UnsupportedLead
  }

  /** A warning is its fixed lead, one blank, and then the version exactly as found. */
  lemma WarningEndsWithVersion(m: Message)
    requires m.DeprecatedVersion? || m.UnsupportedVersion?
    ensures |Text(m)| > |m.version|
    ensures Text(m)[|Text(m)| - |m.version|..] == m.version
    ensures Text(m)[|Text(m)| - |m.version| - 1] == ' '
  {
    var t := Text(m);
    assert t == Lead(m) + " " + m.version;
    assert t[|t| - |m.version|..] == m.version;
  }
}
