/**
 * The pieces of Python's built-in string and integer behaviour that the
 * evaluation scripts rely on: `str.strip()`, `str.upper()`, `int(s)`,
 * `str(n)`, the `%0Nd` format and `sep.join(parts)`, together with the
 * exceptions the scripts can raise.
 */
module PyBuiltins {
  import opened Wrappers

  /** The Python exceptions that can escape from the modelled code. */
  datatype PyError =
    | IndexError                    // `s[0]` on an empty string
    | ValueError(literal: string)   // `int(s)` on text that is not a base-10 integer
    | ZeroDivisionError             // `x / 0`
    | RuntimeError(message: string) // raised explicitly by a script

  // ---------------------------------------------------------------------
  // Whitespace and str.strip()
  // ---------------------------------------------------------------------

  /** `c.isspace()`: exactly the characters `str.strip()` removes by default. */
  predicate IsSpace(c: char) {
    ('\t' <= c <= '\r') || ('\U{1c}' <= c <= ' ') || c == '\U{85}' || c == '\U{a0}'
    || c == '\U{1680}' || ('\U{2000}' <= c <= '\U{200a}') || c == '\U{2028}' || c == '\U{2029}'
    || c == '\U{202f}' || c == '\U{205f}' || c == '\U{3000}'
  }

  /** `s.lstrip()`. */
  function StripLeft(s: string): string {
    if s != [] && IsSpace(s[0]) then StripLeft(s[1..]) else s
  }

  /** `s.lstrip()` is the suffix of `s` left after dropping its leading whitespace. */
  lemma {:induction false} StripLeftSpec(s: string)
    ensures |StripLeft(s)| <= |s| && StripLeft(s) == s[|s| - |StripLeft(s)|..]
    ensures forall i :: 0 <= i < |s| - |StripLeft(s)| ==> IsSpace(s[i])
    ensures StripLeft(s) != [] ==> !IsSpace(StripLeft(s)[0])
  {
    if s != [] && IsSpace(s[0]) {
      var t := s[1..];
      StripLeftSpec(t);
      var r := StripLeft(t);
      assert StripLeft(s) == r;
      assert t[|t| - |r|..] == s[|s| - |r|..];
      forall i | 0 <= i < |s| - |r| ensures IsSpace(s[i]) {
        if i > 0 {
          assert s[i] == t[i - 1];
        }
      }
    }
  }

  /** `s.rstrip()`. */
  function StripRight(s: string): string {
    if s != [] && IsSpace(s[|s| - 1]) then StripRight(s[..|s| - 1]) else s
  }

  /** `s.rstrip()` is the prefix of `s` left after dropping its trailing whitespace. */
  lemma {:induction false} StripRightSpec(s: string)
    ensures |StripRight(s)| <= |s| && StripRight(s) == s[..|StripRight(s)|]
    ensures forall i :: |StripRight(s)| <= i < |s| ==> IsSpace(s[i])
    ensures StripRight(s) != [] ==> !IsSpace(StripRight(s)[|StripRight(s)| - 1])
  {
    if s != [] && IsSpace(s[|s| - 1]) {
      var t := s[..|s| - 1];
      StripRightSpec(t);
      var r := StripRight(t);
      assert StripRight(s) == r;
      assert t[..|r|] == s[..|r|];
      forall i | |r| <= i < |s| ensures IsSpace(s[i]) {
        if i < |s| - 1 {
          assert s[i] == t[i];
        }
      }
    }
  }

  /** `s.strip()`. */
  function Strip(s: string): string {
    StripRight(StripLeft(s))
  }

  /**
   * `s.strip()` neither starts nor ends with whitespace, and is empty
   * exactly when `s` is all whitespace.
   */
  lemma StripSpec(s: string)
    ensures Strip(s) != [] ==> !IsSpace(Strip(s)[0]) && !IsSpace(Strip(s)[|Strip(s)| - 1])
    ensures Strip(s) == [] <==> forall i :: 0 <= i < |s| ==> IsSpace(s[i])
  {
    var l := StripLeft(s);
    StripLeftSpec(s);
    StripRightSpec(l);
    if Strip(s) != [] {
      assert Strip(s)[0] == l[0];
    }
    if l != [] {
      assert StripRight(l) != [];
    }
  }

  /** What `s.strip()` keeps is one slice of `s`, with only whitespace around it. */
  lemma StripIsSlice(s: string)
    ensures exists lo, hi ::
      (0 <= lo <= hi <= |s| && Strip(s) == s[lo..hi]
       && (forall i :: 0 <= i < lo ==> IsSpace(s[i]))
       && (forall i :: hi <= i < |s| ==> IsSpace(s[i])))
  {
    var l := StripLeft(s);
    var r := StripRight(l);
    StripLeftSpec(s);
    StripRightSpec(l);
    var lo := |s| - |l|;
    assert r == s[lo..lo + |r|];
    assert forall i :: lo + |r| <= i < |s| ==> s[i] == l[i - lo];
  }

  // ---------------------------------------------------------------------
  // str.upper()
  // ---------------------------------------------------------------------

  function UpperChar(c: char): char {
    if 'a' <= c <= 'z' then (c as int - 32) as char else c
  }

  /** `s.upper()` on the ASCII letters; every other character is kept. */
  function Upper(s: string): string {
    seq(|s|, i requires 0 <= i < |s| => UpperChar(s[i]))
  }

  /**
   * `s.upper()` keeps the length, leaves digits where they are, turns no
   * other character into a digit and leaves no lower-case ASCII letter.
   */
  lemma UpperSpec(s: string)
    ensures |Upper(s)| == |s|
    ensures forall i :: 0 <= i < |s| ==> (IsDigit(Upper(s)[i]) <==> IsDigit(s[i]))
    ensures forall i :: 0 <= i < |s| && IsDigit(s[i]) ==> Upper(s)[i] == s[i]
    ensures forall i :: 0 <= i < |s| ==> !('a' <= Upper(s)[i] <= 'z')
  {
  }

  // ---------------------------------------------------------------------
  // Decimal digits, str(n) and the %0Nd format
  // ---------------------------------------------------------------------

  predicate IsDigit(c: char) { '0' <= c <= '9' }

  predicate AllDigits(s: string) { forall i :: 0 <= i < |s| ==> IsDigit(s[i]) }

  function DigitVal(c: char): nat
    requires IsDigit(c)
  {
    c as int - '0' as int
  }

  function DigitChar(d: nat): (c: char)
    requires d < 10
    ensures IsDigit(c) && DigitVal(c) == d
  {
    ('0' as int + d) as char
  }

  /** The number a string of decimal digits denotes (leading zeros allowed). */
  function Value(s: string): nat
    requires AllDigits(s)
  {
    if s == [] then 0 else Value(s[..|s| - 1]) * 10 + DigitVal(s[|s| - 1])
  }

  function Pow10(k: nat): nat {
    if k == 0 then 1 else 10 * Pow10(k - 1)
  }

  /** `str(n)` for a non-negative `n`. */
  function Digits(n: nat): string {
    if n < 10 then [DigitChar(n)] else Digits(n / 10) + [DigitChar(n % 10)]
  }

  /** `str(n)` is a non-empty string of decimal digits denoting `n`, with no leading zero. */
  lemma {:induction false} DigitsSpec(n: nat)
    ensures |Digits(n)| >= 1 && AllDigits(Digits(n)) && Value(Digits(n)) == n
    ensures |Digits(n)| > 1 ==> Digits(n)[0] != '0'
  {
    if n >= 10 {
      var p := Digits(n / 10);
      DigitsSpec(n / 10);
      var r := p + [DigitChar(n % 10)];
      assert r[..|r| - 1] == p;
      assert r[0] == p[0];
    }
  }

  function Zeros(k: nat): (z: string)
    ensures |z| == k && AllDigits(z)
  {
    seq(k, _ => '0')
  }

  /** `"%0*d" % (width, n)` for a non-negative `n`. */
  function FormatZeroPadded(n: nat, width: nat): string {
    var d := Digits(n);
    if |d| >= width then d else Zeros(width - |d|) + d
  }

  /**
   * `"%0*d" % (width, n)` is `str(n)` left-padded with zeros to `width`
   * characters: only digits, denoting `n`.
   */
  lemma FormatZeroPaddedSpec(n: nat, width: nat)
    ensures |FormatZeroPadded(n, width)| == if |Digits(n)| >= width then |Digits(n)| else width
    ensures AllDigits(FormatZeroPadded(n, width)) && Value(FormatZeroPadded(n, width)) == n
    ensures forall i :: 0 <= i < |FormatZeroPadded(n, width)| - |Digits(n)| ==> FormatZeroPadded(n, width)[i] == '0'
  {
    var d := Digits(n);
    DigitsSpec(n);
    if |d| < width {
      ValueLeadingZeros(width - |d|, d);
    }
  }

  /** Leading zeros do not change the value of a digit string. */
  lemma {:induction false} ValueLeadingZeros(k: nat, s: string)
    requires AllDigits(s)
    ensures AllDigits(Zeros(k) + s) && Value(Zeros(k) + s) == Value(s)
  {
    var z := Zeros(k) + s;
    if s == [] {
      assert z == Zeros(k);
      ValueZeros(k);
    } else {
      ValueLeadingZeros(k, s[..|s| - 1]);
      assert z[..|z| - 1] == Zeros(k) + s[..|s| - 1];
    }
  }

  lemma {:induction false} ValueZeros(k: nat)
    ensures Value(Zeros(k)) == 0
  {
    if k > 0 {
      ValueZeros(k - 1);
      assert Zeros(k)[..k - 1] == Zeros(k - 1);
    }
  }

  /** `str(n)` has exactly as many digits as the decimal magnitude of `n`. */
  lemma {:induction false} DigitsLength(n: nat)
    ensures n < Pow10(|Digits(n)|)
    ensures n >= 10 ==> Pow10(|Digits(n)| - 1) <= n
  {
    if n >= 10 {
      DigitsLength(n / 10);
      assert |Digits(n)| == |Digits(n / 10)| + 1;
    }
  }

  lemma {:induction false} Pow10Monotone(a: nat, b: nat)
    requires a <= b
    ensures Pow10(a) <= Pow10(b)
  {
    if a < b {
      Pow10Monotone(a, b - 1);
    }
  }

  /** `str(n)` fits in `k >= 1` characters exactly when `n < 10^k`. */
  lemma DigitsFit(n: nat, k: nat)
    requires k >= 1
    ensures |Digits(n)| <= k <==> n < Pow10(k)
  {
    DigitsLength(n);
    if |Digits(n)| <= k {
      Pow10Monotone(|Digits(n)|, k);
    } else {
      Pow10Monotone(k, |Digits(n)| - 1);
    }
  }

  // ---------------------------------------------------------------------
  // int(s)
  // ---------------------------------------------------------------------

  /** Digits in which single underscores may separate two digits, as `int()` accepts. */
  predicate IsDigitGroup(s: string) {
    |s| > 0 &&
    (forall i :: 0 <= i < |s| ==> IsDigit(s[i]) || s[i] == '_') &&
    (forall i :: 0 <= i < |s| && s[i] == '_' ==> 0 < i < |s| - 1 && IsDigit(s[i - 1]) && IsDigit(s[i + 1]))
  }

  predicate DigitsOrUnderscores(s: string) {
    forall i :: 0 <= i < |s| ==> IsDigit(s[i]) || s[i] == '_'
  }

  function RemoveUnderscores(s: string): (r: string)
    ensures DigitsOrUnderscores(s) ==> AllDigits(r)
    ensures AllDigits(s) ==> r == s
  {
    if s == [] then []
    else (if s[0] == '_' then [] else [s[0]]) + RemoveUnderscores(s[1..])
  }

  /** The value of a digit group, or None when `body` is not one. */
  function ParseDigitGroup(body: string): (r: Option<nat>)
    ensures r.Some? <==> IsDigitGroup(body)
    ensures AllDigits(body) && body != [] ==> r == Some(Value(body))
  {
    if IsDigitGroup(body) then
      assert DigitsOrUnderscores(body);
      Some(Value(RemoveUnderscores(body)))
    else None
  }

  /** An optional sign followed by a digit group, as `int()` reads it once stripped. */
  function ParseSigned(t: string): Option<int>
  {
    if t != [] && (t[0] == '+' || t[0] == '-') then
      match ParseDigitGroup(t[1..])
      case None => None
      case Some(v) =>
        var signed := if t[0] == '-' then -(v as int) else v as int;
        Some(signed)
    else
      match ParseDigitGroup(t)
      case None => None
      case Some(v) => Some(v as int)
  }

  /**
   * `int(s)` in base 10: surrounding whitespace is ignored, one optional
   * sign, then a digit group; anything else raises ValueError (None here).
   */
  function ParseInt(s: string): Option<int>
  {
    ParseSigned(Strip(s))
  }

  /** `int(str(n)) == n`. */
  lemma ParseIntDigits(n: nat)
    ensures ParseInt(Digits(n)) == Some(n)
  {
    var d := Digits(n);
    DigitsSpec(n);
    DigitNotSpace(d[0]);
    DigitNotSpace(d[|d| - 1]);
    StripNoSpace(d);
    ParseSignedDigits(d);
  }

  lemma DigitNotSpace(c: char)
    requires IsDigit(c)
    ensures !IsSpace(c) && c != '+' && c != '-'
  {
  }

  lemma ParseSignedDigits(d: string)
    requires d != [] && AllDigits(d)
    ensures ParseSigned(d) == Some(Value(d))
  {
    DigitNotSpace(d[0]);
  }

  /** A string that neither starts nor ends with whitespace is its own strip. */
  lemma StripNoSpace(s: string)
    requires s != [] && !IsSpace(s[0]) && !IsSpace(s[|s| - 1])
    ensures Strip(s) == s
  {
    assert StripLeft(s) == s;
    assert StripRight(s) == s;
  }

  /** `int(c)` for one character succeeds exactly on a decimal digit, giving its value. */
  lemma ParseIntChar(c: char)
    ensures ParseInt([c]) == if IsDigit(c) then Some(DigitVal(c)) else None
  {
    if IsSpace(c) {
      StripSpec([c]);
      assert [c][0] == c;
    } else {
      StripNoSpace([c]);
      assert ParseInt([c]) == ParseSigned([c]);
      if IsDigit(c) {
        assert [c][..0] == [];
        assert Value([c]) == DigitVal(c);
        assert ParseDigitGroup([c]) == Some(DigitVal(c));
      } else {
        assert [c][0] == c;
        assert !IsDigitGroup([c]);
        if c == '+' || c == '-' {
          assert !IsDigitGroup([c][1..]);
        }
      }
    }
  }

  // ---------------------------------------------------------------------
  // sep.join(parts)
  // ---------------------------------------------------------------------

  /** `sep.join(parts)`. */
  function Join(sep: string, parts: seq<string>): string
  {
    if |parts| == 0 then ""
    else if |parts| == 1 then parts[0]
    else Join(sep, parts[..|parts| - 1]) + sep + parts[|parts| - 1]
  }

  /** Where `parts[k]` starts in `sep.join(parts)`. */
  function Offset(sep: string, parts: seq<string>, k: nat): nat
    requires k <= |parts|
  {
    if k == 0 then 0 else Offset(sep, parts, k - 1) + |parts[k - 1]| + |sep|
  }

  lemma {:induction false} OffsetPrefix(sep: string, parts: seq<string>, n: nat, k: nat)
    requires k <= n <= |parts|
    ensures Offset(sep, parts[..n], k) == Offset(sep, parts, k)
  {
    if k > 0 {
      OffsetPrefix(sep, parts, n, k - 1);
    }
  }

  /** `sep.join(parts)` is as long as its parts with one `sep` between each two. */
  lemma {:induction false} JoinLength(sep: string, parts: seq<string>)
    requires |parts| > 0
    ensures |Join(sep, parts)| == Offset(sep, parts, |parts| - 1) + |parts[|parts| - 1]|
  {
    var n := |parts|;
    if n > 1 {
      JoinLength(sep, parts[..n - 1]);
      OffsetPrefix(sep, parts, n - 1, n - 2);
    }
  }

  /** A slice that lies inside the first operand of a concatenation. */
  lemma SliceOfLeft(a: string, b: string, lo: nat, hi: nat)
    requires lo <= hi <= |a|
    ensures (a + b)[lo..hi] == a[lo..hi]
  {
  }

  /**
   * `sep.join(parts)` holds `parts[k]` at its offset: every part is kept, in
   * order, none dropped, merged or reordered.
   */
  lemma {:induction false} JoinPart(sep: string, parts: seq<string>, k: nat)
    requires k < |parts|
    ensures Offset(sep, parts, k) + |parts[k]| <= |Join(sep, parts)|
    ensures Join(sep, parts)[Offset(sep, parts, k)..Offset(sep, parts, k) + |parts[k]|] == parts[k]
  {
    var n := |parts|;
    if n > 1 {
      var init := parts[..n - 1];
      var j := Join(sep, init);
      assert Join(sep, parts) == j + (sep + parts[n - 1]);
      var lo := Offset(sep, parts, k);
      if k < n - 1 {
        JoinPart(sep, init, k);
        OffsetPrefix(sep, parts, n - 1, k);
        assert init[k] == parts[k];
        SliceOfLeft(j, sep + parts[n - 1], lo, lo + |parts[k]|);
      } else {
        JoinLength(sep, init);
        OffsetPrefix(sep, parts, n - 1, n - 2);
        assert lo == |j| + |sep|;
        assert (j + (sep + parts[n - 1]))[lo..lo + |parts[k]|] == parts[k];
      }
    }
  }

  /** Between `parts[k]` and `parts[k + 1]` the joined string holds exactly `sep`. */
  lemma {:induction false} JoinSeparator(sep: string, parts: seq<string>, k: nat)
    requires k + 1 < |parts|
    ensures Offset(sep, parts, k + 1) <= |Join(sep, parts)|
    ensures Join(sep, parts)[Offset(sep, parts, k) + |parts[k]|..Offset(sep, parts, k + 1)] == sep
  {
    var n := |parts|;
    var init := parts[..n - 1];
    var j := Join(sep, init);
    assert Join(sep, parts) == j + (sep + parts[n - 1]);
    OffsetPrefix(sep, parts, n - 1, k);
    OffsetPrefix(sep, parts, n - 1, k + 1);
    var lo := Offset(sep, parts, k) + |parts[k]|;
    var hi := Offset(sep, parts, k + 1);
    if k + 1 < n - 1 {
      JoinSeparator(sep, init, k);
      assert init[k] == parts[k];
      SliceOfLeft(j, sep + parts[n - 1], lo, hi);
    } else {
      JoinLength(sep, init);
      assert lo == |j| && hi == |j| + |sep|;
      assert (j + (sep + parts[n - 1]))[lo..hi] == sep;
    }
  }
}
