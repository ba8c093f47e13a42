/**
 * The version policy of the launcher: `is_supported_version` in cqlsh.py.
 *
 * The script splits the version string with two parameter expansions,
 * `${version%.*}` (drop the shortest suffix that starts with a dot) for the
 * major part and `${version#*.}` (drop the shortest prefix that ends with a
 * dot) for the minor part.  The major part is compared as the string "3"; the
 * minor part is given to the `-ge` and `-le` integer tests of test(1), which
 * fail on anything that is not an integer.
 */
module VersionPolicy {
  import opened Optional

  /** The three answers of `is_supported_version`. */
  datatype Tier = Supported | Deprecated | Unsupported

  /** The tiers as the policy states them for a numeric (major, minor) pair. */
  function PolicyTier(major: nat, minor: nat): Tier
  {
    if major == 3 && 8 <= minor <= 11 then Supported
    else if major == 3 && 6 <= minor <= 7 then Deprecated
    else Unsupported
  }

  // ---------------------------------------------------------------------------
  // The two parameter expansions
  // ---------------------------------------------------------------------------

  /** Position of the last '.' of `s`, if there is one. */
  function LastDot(s: string): (r: Option<nat>)
    ensures r.None? ==> forall j :: 0 <= j < |s| ==> s[j] != '.'
    ensures r.Some? ==> r.value < |s| && s[r.value] == '.'
    ensures r.Some? ==> forall j :: r.value < j < |s| ==> s[j] != '.'
  {
    if |s| == 0 then None
    else if s[|s| - 1] == '.' then Some(|s| - 1)
    else LastDot(s[..|s| - 1])
  }

  /** Position of the first '.' of `s`, if there is one. */
  function FirstDot(s: string): (r: Option<nat>)
    ensures r.None? ==> forall j :: 0 <= j < |s| ==> s[j] != '.'
    ensures r.Some? ==> r.value < |s| && s[r.value] == '.'
    ensures r.Some? ==> forall j :: 0 <= j < r.value ==> s[j] != '.'
  {
    if |s| == 0 then None
    else if s[0] == '.' then Some(0)
    else match FirstDot(s[1..])
      case None => None
      case Some(i) => Some(i + 1)
  }

  /** `${version%.*}`: everything before the last dot, or all of it when there is no dot. */
  function MajorVersion(version: string): (major: string)
    ensures (forall j :: 0 <= j < |version| ==> version[j] != '.') ==> major == version
    ensures (exists j :: 0 <= j < |version| && version[j] == '.') ==> major != version
    ensures major != version ==>
      |major| < |version| && version[..|major|] == major && version[|major|] == '.' &&
      forall j :: |major| < j < |version| ==> version[j] != '.'
  {
    match LastDot(version)
    case None => version
    case Some(i) => version[..i]
  }

  /** `${version#*.}`: everything after the first dot, or all of it when there is no dot. */
  function MinorVersion(version: string): (minor: string)
    ensures (forall j :: 0 <= j < |version| ==> version[j] != '.') ==> minor == version
    ensures (exists j :: 0 <= j < |version| && version[j] == '.') ==> minor != version
    ensures minor != version ==>
      |minor| < |version| && version[|version| - |minor|..] == minor &&
      version[|version| - |minor| - 1] == '.' &&
      forall j :: 0 <= j < |version| - |minor| - 1 ==> version[j] != '.'
  {
    match FirstDot(version)
    case None => version
    case Some(i) => version[i + 1..]
  }

  // ---------------------------------------------------------------------------
  // Integer operands of test(1)
  // ---------------------------------------------------------------------------

  /** The characters C's isspace accepts: blank, tab, newline, vertical tab, form feed, carriage return. */
  predicate IsSpace(c: char)
  {
    c == ' ' || 9 <= c as int <= 13
  }

  predicate IsDigit(c: char)
  {
    '0' as int <= c as int <= '9' as int
  }

  function DigitValue(c: char): (d: nat)
    requires IsDigit(c)
    ensures d < 10
  {
    c as int - '0' as int
  }

  /** A non-empty run of decimal digits. */
  predicate IsDigits(s: string)
  {
    |s| > 0 && forall i :: 0 <= i < |s| ==> IsDigit(s[i])
  }

  /** The value of a run of decimal digits (leading zeros allowed). */
  function DecimalValue(s: string): nat
    requires forall i :: 0 <= i < |s| ==> IsDigit(s[i])
  {
    if s == [] then 0
    else DecimalValue(s[..|s| - 1]) * 10 + DigitValue(s[|s| - 1])
  }

  function DropLeadingSpace(s: string): (t: string)
    ensures |t| <= |s| && t == s[|s| - |t|..]
    ensures forall i :: 0 <= i < |s| - |t| ==> IsSpace(s[i])
    ensures t == [] || !IsSpace(t[0])
  {
    if |s| > 0 && IsSpace(s[0]) then DropLeadingSpace(s[1..]) else s
  }

  function DropTrailingSpace(s: string): (t: string)
    ensures |t| <= |s| && t == s[..|t|]
    ensures forall i :: |t| <= i < |s| ==> IsSpace(s[i])
    ensures t == [] || !IsSpace(t[|t| - 1])
  {
    if |s| > 0 && IsSpace(s[|s| - 1]) then DropTrailingSpace(s[..|s| - 1]) else s
  }

  /** An optional sign followed by at least one digit, with its value; None for anything else. */
  function SignedValue(t: string): (r: Option<int>)
    ensures r.Some? <==> IsDigits(t) || (|t| > 0 && (t[0] == '-' || t[0] == '+') && IsDigits(t[1..]))
    ensures r.Some? ==> forall i :: 0 <= i < |t| ==> IsDigit(t[i]) || t[i] == '+' || t[i] == '-'
    ensures IsDigits(t) ==> r == Some(DecimalValue(t))
    ensures |t| > 0 && t[0] == '+' && IsDigits(t[1..]) ==> r == Some(DecimalValue(t[1..]))
    ensures |t| > 0 && t[0] == '-' && IsDigits(t[1..]) ==> r == Some(-(DecimalValue(t[1..]) as int))
  {
    if |t| > 0 && t[0] == '-' && IsDigits(t[1..]) then Some(-(DecimalValue(t[1..]) as int))
    else if |t| > 0 && t[0] == '+' && IsDigits(t[1..]) then Some(DecimalValue(t[1..]))
    else if IsDigits(t) then Some(DecimalValue(t))
    else None
  }

  /**
   * The integer an operand of `-ge`/`-le` stands for, as dash's test(1)
   * reads it (strtoimax, isspace): optional white space, an optional sign,
   * at least one digit, optional white space.  None when the test fails.
   */
  function TestInteger(s: string): (r: Option<int>)
    ensures r.Some? ==> |s| > 0
    ensures r.Some? ==> forall i :: 0 <= i < |s| ==>
      IsSpace(s[i]) || IsDigit(s[i]) || s[i] == '+' || s[i] == '-'
  {
    var u := DropLeadingSpace(s);
    var t := DropTrailingSpace(u);
    var r := SignedValue(t);
    assert r.Some? ==> forall i :: 0 <= i < |s| ==> IsSpace(s[i]) || IsDigit(s[i]) || s[i] == '+' || s[i] == '-' by {
      if r.Some? {
        forall i | 0 <= i < |s|
          ensures IsSpace(s[i]) || IsDigit(s[i]) || s[i] == '+' || s[i] == '-'
        {
          var k := |s| - |u|;
          if k <= i < k + |t| {
            assert s[i] == u[i - k] == t[i - k];
          } else if k + |t| <= i {
            assert s[i] == u[i - k];
          }
        }
      }
    }
    r
  }

  /**
   * `s` is an operand test(1) accepts, cut at `i`, `j` and `k`: white space
   * before `i`, an optional sign in `s[i..j]`, the digits `s[j..k]`, white
   * space from `k` on.
   */
  predicate IntegerOperand(s: string, i: nat, j: nat, k: nat)
  {
    i <= j <= k <= |s| &&
    (forall p :: 0 <= p < i ==> IsSpace(s[p])) &&
    (j == i || (j == i + 1 && (s[i] == '+' || s[i] == '-'))) &&
    IsDigits(s[j..k]) &&
    (forall p :: k <= p < |s| ==> IsSpace(s[p]))
  }

  /** The value of such an operand: the digits, negated after a minus sign. */
  function OperandValue(s: string, i: nat, j: nat, k: nat): int
    requires IntegerOperand(s, i, j, k)
  {
    if j == i + 1 && s[i] == '-' then -(DecimalValue(s[j..k]) as int) else DecimalValue(s[j..k])
  }

  /** Dropping leading white space stops at the first character that is not white space. */
  lemma {:induction false} DropLeadingSpaceAt(s: string, i: nat)
    requires i < |s| && !IsSpace(s[i])
    requires forall p :: 0 <= p < i ==> IsSpace(s[p])
    ensures DropLeadingSpace(s) == s[i..]
    decreases i
  {
    if i > 0 {
      assert IsSpace(s[0]);
      assert s[1..][i - 1] == s[i];
      DropLeadingSpaceAt(s[1..], i - 1);
      assert s[1..][i - 1..] == s[i..];
    }
  }

  /** Dropping trailing white space from `s[i..]` stops after `s[k - 1]`, the last character that is not white space. */
  lemma {:induction false} DropTrailingSpaceAt(s: string, i: nat, k: nat)
    requires i < k <= |s| && !IsSpace(s[k - 1])
    requires forall p :: k <= p < |s| ==> IsSpace(s[p])
    ensures DropTrailingSpace(s[i..]) == s[i..k]
    decreases |s| - k
  {
    if k < |s| {
      var s' := s[..|s| - 1];
      assert s[i..][|s| - i - 1] == s[|s| - 1];
      assert s[i..][..|s| - i - 1] == s'[i..];
      assert s'[k - 1] == s[k - 1];
      DropTrailingSpaceAt(s', i, k);
      assert s'[i..k] == s[i..k];
    } else {
      assert s[i..][|s| - i - 1] == s[k - 1];
    }
  }

  /** Trimming removes exactly the white space before `i` and from `k` on, when `s[i]` and `s[k - 1]` are not white space. */
  lemma TrimBetween(s: string, i: nat, k: nat)
    requires i < k <= |s| && !IsSpace(s[i]) && !IsSpace(s[k - 1])
    requires forall p :: 0 <= p < i ==> IsSpace(s[p])
    requires forall p :: k <= p < |s| ==> IsSpace(s[p])
    ensures DropTrailingSpace(DropLeadingSpace(s)) == s[i..k]
  {
    DropLeadingSpaceAt(s, i);
    DropTrailingSpaceAt(s, i, k);
  }

  /** Trimming an operand of that shape leaves the sign and the digits. */
  lemma TrimOperand(s: string, i: nat, j: nat, k: nat)
    requires IntegerOperand(s, i, j, k)
    ensures DropTrailingSpace(DropLeadingSpace(s)) == s[i..k]
  {
    assert IsDigit(s[j..k][k - j - 1]) && s[j..k][k - j - 1] == s[k - 1];
    assert IsDigit(s[j..k][0]) && s[j..k][0] == s[j];
    TrimBetween(s, i, k);
  }

  /** The sign and the digits of an operand of that shape read as its value. */
  lemma SignedOperand(s: string, i: nat, j: nat, k: nat)
    requires IntegerOperand(s, i, j, k)
    ensures SignedValue(s[i..k]) == Some(OperandValue(s, i, j, k))
  {
    var t := s[i..k];
    if j == i {
      assert t == s[j..k];
    } else {
      assert t[0] == s[i] && t[1..] == s[j..k];
    }
  }

  /** test(1) accepts every operand of that shape, with the value of its sign and digits. */
  lemma TestIntegerAccepts(s: string, i: nat, j: nat, k: nat)
    requires IntegerOperand(s, i, j, k)
    ensures TestInteger(s) == Some(OperandValue(s, i, j, k))
  {
    TrimOperand(s, i, j, k);
    SignedOperand(s, i, j, k);
  }

  /** Conversely, every operand test(1) accepts has that shape, and the value read is its value. */
  lemma TestIntegerAccepted(s: string)
    requires TestInteger(s).Some?
    ensures exists i, j, k :: IntegerOperand(s, i, j, k) && TestInteger(s).value == OperandValue(s, i, j, k)
  {
    var u := DropLeadingSpace(s);
    var t := DropTrailingSpace(u);
    var i := |s| - |u|;
    var k := i + |t|;
    assert t == s[i..k] by {
      assert u == s[i..] && t == u[..|t|];
    }
    assert forall p :: k <= p < |s| ==> IsSpace(s[p]) by {
      forall p | k <= p < |s|
        ensures IsSpace(s[p])
      {
        assert s[p] == u[p - i];
      }
    }
    OperandOfSigned(s, i, k);
  }

  /** Text between white space that reads as a signed number is an operand of that shape. */
  lemma OperandOfSigned(s: string, i: nat, k: nat)
    requires i <= k <= |s|
    requires forall p :: 0 <= p < i ==> IsSpace(s[p])
    requires forall p :: k <= p < |s| ==> IsSpace(s[p])
    requires SignedValue(s[i..k]).Some?
    ensures exists j :: IntegerOperand(s, i, j, k) && SignedValue(s[i..k]).value == OperandValue(s, i, j, k)
  {
    var t := s[i..k];
    if IsDigits(t) {
      assert IntegerOperand(s, i, i, k);
    } else {
      assert t[0] == s[i] && t[1..] == s[i + 1..k];
      assert IntegerOperand(s, i, i + 1, k);
    }
  }

  // ---------------------------------------------------------------------------
  // The classifier
  // ---------------------------------------------------------------------------

  /** `is_supported_version`: 3.8-3.11 supported, 3.6-3.7 deprecated, anything else unsupported. */
  function Classify(version: string): Tier
  {
    var major := MajorVersion(version);
    var minor := TestInteger(MinorVersion(version));
    if major == "3" && minor.Some? && 8 <= minor.value <= 11 then Supported
    else if major == "3" && minor.Some? && 6 <= minor.value <= 7 then Deprecated
    else Unsupported
  }

  // ---------------------------------------------------------------------------
  // Decimal rendering, as the probe prints `{major}.{minor}`
  // ---------------------------------------------------------------------------

  function DigitChar(d: nat): (c: char)
    requires d < 10
    ensures IsDigit(c) && DigitValue(c) == d
  {
    ('0' as int + d) as char
  }

  /** The decimal representation of `n`, without leading zeros. */
  function Decimal(n: nat): (s: string)
    ensures IsDigits(s)
    ensures s[0] == '0' <==> n == 0
    ensures n < 10 <==> |s| == 1
    decreases n
  {
    if n < 10 then [DigitChar(n)] else Decimal(n / 10) + [DigitChar(n % 10)]
  }

  /** Reading back a rendered number gives the number. */
  lemma {:induction false} DecimalRoundTrip(n: nat)
    ensures DecimalValue(Decimal(n)) == n
    decreases n
  {
    if n >= 10 {
      var s := Decimal(n);
      assert s[..|s| - 1] == Decimal(n / 10);
      DecimalRoundTrip(n / 10);
    }
  }

  /** test(1) reads a rendered number as that number. */
  lemma TestIntegerOfDecimal(n: nat)
    ensures TestInteger(Decimal(n)) == Some(n)
  {
    var s := Decimal(n);
    assert !IsSpace(s[0]) && !IsSpace(s[|s| - 1]);
    assert DropLeadingSpace(s) == s;
    assert DropTrailingSpace(s) == s;
    assert s[0] != '-' && s[0] != '+';
    DecimalRoundTrip(n);
    assert SignedValue(s) == Some(n);
  }

  /** A leading zero does not change the value of a run of digits. */
  lemma {:induction false} LeadingZeroValue(d: string)
    requires forall i :: 0 <= i < |d| ==> IsDigit(d[i])
    ensures DecimalValue("0" + d) == DecimalValue(d)
    decreases |d|
  {
    if d != [] {
      var d' := d[..|d| - 1];
      assert ("0" + d)[..|"0" + d| - 1] == "0" + d';
      LeadingZeroValue(d');
    }
  }

  /** test(1) reads a rendered number after one leading zero as that number: "08" is 8. */
  lemma TestIntegerOfZeroPadded(n: nat)
    ensures TestInteger("0" + Decimal(n)) == Some(n)
  {
    var s := "0" + Decimal(n);
    assert forall p :: 0 < p < |s| ==> s[p] == Decimal(n)[p - 1];
    assert s[0..|s|] == s;
    assert IntegerOperand(s, 0, 0, |s|);
    TestIntegerAccepts(s, 0, 0, |s|);
    LeadingZeroValue(Decimal(n));
    DecimalRoundTrip(n);
  }

  /** test(1) skips white space before a rendered number: " 9" is 9. */
  lemma TestIntegerOfSpaced(pad: string, n: nat)
    requires forall p :: 0 <= p < |pad| ==> IsSpace(pad[p])
    ensures TestInteger(pad + Decimal(n)) == Some(n)
  {
    var s := pad + Decimal(n);
    assert s[|pad|..|s|] == Decimal(n);
    assert forall p :: 0 <= p < |pad| ==> s[p] == pad[p];
    assert IntegerOperand(s, |pad|, |pad|, |s|);
    TestIntegerAccepts(s, |pad|, |pad|, |s|);
    DecimalRoundTrip(n);
  }

  /** Only the number 3 renders as the string "3". */
  lemma DecimalIsThree(n: nat)
    ensures Decimal(n) == "3" <==> n == 3
  {
    if n < 10 {
      assert DigitValue(Decimal(n)[0]) == n;
    }
  }

  /** Joining two dotless strings with a dot: the expansions give back the two parts. */
  lemma SplitAtOnlyDot(a: string, b: string)
    requires forall j :: 0 <= j < |a| ==> a[j] != '.'
    requires forall j :: 0 <= j < |b| ==> b[j] != '.'
    ensures MajorVersion(a + "." + b) == a
    ensures MinorVersion(a + "." + b) == b
  {
    var v := a + "." + b;
    assert v[|a|] == '.';
    assert forall j :: 0 <= j < |a| ==> v[j] == a[j];
    assert forall j :: |a| < j < |v| ==> v[j] == b[j - |a| - 1];
    assert v[..|a|] == a;
    assert v[|a| + 1..] == b;
  }

  /**
   * The string `{major}.{minor}` that the probe prints is classified exactly
   * as the policy states for the pair (major, minor).
   */
  lemma ClassifyRendered(major: nat, minor: nat)
    ensures Classify(Decimal(major) + "." + Decimal(minor)) == PolicyTier(major, minor)
  {
    SplitAtOnlyDot(Decimal(major), Decimal(minor));
    TestIntegerOfDecimal(minor);
    DecimalIsThree(major);
  }

  /** The renderings the worked cases use. */
  lemma SmallDecimals()
    ensures Decimal(2) == "2" && Decimal(3) == "3" && Decimal(7) == "7" && Decimal(8) == "8" && Decimal(9) == "9"
    ensures Decimal(12) == "12"
  {
    assert Decimal(1) == "1";
    assert 12 / 10 == 1 && 12 % 10 == 2;
  }

  /** The classifier on the versions the worked cases use. */
  lemma ClassifyExamples()
    ensures Classify("3.9") == Supported
    ensures Classify("3.7") == Deprecated
    ensures Classify("2.7") == Unsupported
    ensures Classify("3.12") == Unsupported
  {
    SmallDecimals();
    assert "3" + "." + "9" == "3.9" && "3" + "." + "7" == "3.7";
    assert "2" + "." + "7" == "2.7" && "3" + "." + "12" == "3.12";
    ClassifyRendered(3, 9);
    ClassifyRendered(3, 7);
    ClassifyRendered(2, 7);
    ClassifyRendered(3, 12);
  }

  /** The two halves of the one-dot examples. */
  lemma ThreeDotSplits()
    ensures MajorVersion("3.08") == "3" && MinorVersion("3.08") == "08"
    ensures MajorVersion("3. 9") == "3" && MinorVersion("3. 9") == " 9"
    ensures MajorVersion("3.x") == "3" && MinorVersion("3.x") == "x"
  {
    SplitAtOnlyDot("3", "08");
    assert "3" + "." + "08" == "3.08";
    SplitAtOnlyDot("3", " 9");
    assert "3" + "." + " 9" == "3. 9";
    SplitAtOnlyDot("3", "x");
    assert "3" + "." + "x" == "3.x";
  }

  /** "3.08" is read as 3.8. */
  lemma LeadingZeroVersion()
    ensures Classify("3.08") == Supported
  {
    ThreeDotSplits();
    ZeroEightIsEight();
  }

  /** "08" reads as 8. */
  lemma ZeroEightIsEight()
    ensures TestInteger("08") == Some(8)
  {
    SmallDecimals();
    assert "0" + Decimal(8) == "08";
    TestIntegerOfZeroPadded(8);
  }

  /** "3. 9" is read as 3.9. */
  lemma LeadingSpaceVersion()
    ensures Classify("3. 9") == Supported
  {
    ThreeDotSplits();
    SpaceNineIsNine();
  }

  /** " 9" reads as 9. */
  lemma SpaceNineIsNine()
    ensures TestInteger(" 9") == Some(9)
  {
    SmallDecimals();
    assert " " + Decimal(9) == " 9";
    assert IsSpace(" "[0]);
    TestIntegerOfSpaced(" ", 9);
  }

  /** A second dot makes the part before the last dot longer than "3". */
  lemma SecondDotVersion()
    ensures Classify("3.9.1") == Unsupported
  {
    var v := "3.9.1";
    assert v[3] == '.';
    assert MajorVersion(v) != "3";
  }

  /** A minor part that is no integer fails the test. */
  lemma NonNumericMinor()
    ensures Classify("3.x") == Unsupported
  {
    ThreeDotSplits();
    NotAnInteger();
  }

  /** "x" is no integer operand. */
  lemma NotAnInteger()
    ensures TestInteger("x") == None
  {
    var x := "x";
    assert !IsSpace(x[0]) && !IsDigit(x[0]) && x[0] != '+' && x[0] != '-';
  }

  /**
   * test(1) reads the minor part leniently: a leading zero and leading white
   * space are accepted, a second dot or a non-numeric minor part is not.
   */
  lemma LenientVersions()
    ensures Classify("3.08") == Supported
    ensures Classify("3. 9") == Supported
    ensures Classify("3.9.1") == Unsupported
    ensures Classify("3.x") == Unsupported
  {
    LeadingZeroVersion();
    LeadingSpaceVersion();
    SecondDotVersion();
    NonNumericMinor();
  }

  /** What a usable version has to satisfy, read off the classifier. */
  lemma UsableParts(version: string)
    requires Classify(version) != Unsupported
    ensures MajorVersion(version) == "3"
    ensures TestInteger(MinorVersion(version)).Some?
    ensures 6 <= TestInteger(MinorVersion(version)).value <= 11
  {
  }

  /** A dotless version is never usable: its minor part is the whole string. */
  lemma DotlessUnusable(version: string)
    requires forall j :: 0 <= j < |version| ==> version[j] != '.'
    ensures Classify(version) == Unsupported
  {
    if MajorVersion(version) == "3" {
      assert TestInteger("3") == Some(3) by {
        SmallDecimals();
        TestIntegerOfDecimal(3);
      }
    }
  }

  /** A version whose text before the last dot is "3" starts with "3." and has no other dot. */
  lemma MajorThreeShape(version: string)
    requires MajorVersion(version) == "3" && MajorVersion(version) != version
    ensures |version| >= 2 && version[..2] == "3."
    ensures forall j :: 2 <= j < |version| ==> version[j] != '.'
    ensures MinorVersion(version) == version[2..]
  {
    var major := MajorVersion(version);
    assert version[..1] == major;
    assert version[0] == '3' && version[1] == '.';
    assert FirstDot(version) == Some(1);
    assert version[..2] == [version[0], version[1]];
  }

  /**
   * Conversely, "3." followed by text without a dot gets its tier from the
   * value test(1) reads from that text.
   */
  lemma ClassifyThreeDot(tail: string)
    requires forall j :: 0 <= j < |tail| ==> tail[j] != '.'
    ensures TestInteger(tail).None? ==> Classify("3." + tail) == Unsupported
    ensures TestInteger(tail).Some? && 8 <= TestInteger(tail).value <= 11 ==> Classify("3." + tail) == Supported
    ensures TestInteger(tail).Some? && 6 <= TestInteger(tail).value <= 7 ==> Classify("3." + tail) == Deprecated
    ensures TestInteger(tail).Some? && !(6 <= TestInteger(tail).value <= 11) ==> Classify("3." + tail) == Unsupported
  {
    SplitAtOnlyDot("3", tail);
    assert "3" + "." + tail == "3." + tail;
  }

  /**
   * A usable version is "3." followed by text without any further dot that
   * test(1) reads as an integer from 6 to 11: any other major part, or a
   * second dot, makes the version unsupported.
   */
  lemma UsableVersionShape(version: string)
    requires Classify(version) != Unsupported
    ensures |version| >= 3 && version[..2] == "3."
    ensures forall j :: 2 <= j < |version| ==> version[j] != '.'
    ensures TestInteger(version[2..]).Some?
    ensures 6 <= TestInteger(version[2..]).value <= 11
  {
    UsableParts(version);
    if forall j :: 0 <= j < |version| ==> version[j] != '.' {
      DotlessUnusable(version);
    }
    MajorThreeShape(version);
  }
}
