/**
 * The identifier that joins a batch request to its question: the 1-based
 * position of the question in the test set, formatted as `f"q{idx:04d}"`.
 */
module CustomIds {
  import opened PyBuiltins

  /** `f"q{idx:04d}"`. */
  function CustomId(idx: nat): string {
    "q" + FormatZeroPadded(idx, 4)
  }

  /**
   * The identifier is a `q` followed by at least four decimal digits that
   * read back as `idx`.
   */
  lemma CustomIdSpec(idx: nat)
    ensures |CustomId(idx)| >= 5 && CustomId(idx)[0] == 'q'
    ensures AllDigits(CustomId(idx)[1..]) && Value(CustomId(idx)[1..]) == idx
  {
    var digits := FormatZeroPadded(idx, 4);
    FormatZeroPaddedSpec(idx, 4);
    assert CustomId(idx)[1..] == digits;
  }

  /**
   * For `1 <= idx <= 9999` the identifier is exactly `q` and four digits;
   * from 10000 on it grows past five characters.
   */
  lemma CustomIdLength(idx: nat)
    ensures |CustomId(idx)| == 5 <==> idx <= 9999
  {
    DigitsFit(idx, 4);
    FormatZeroPaddedSpec(idx, 4);
    assert |CustomId(idx)| == 1 + |FormatZeroPadded(idx, 4)|;
  }

  /** The four digits of a small identifier are those of `idx`, most significant first. */
  lemma CustomIdDigits(idx: nat)
    requires idx <= 9999
    ensures CustomId(idx) == ['q', DigitChar(idx / 1000), DigitChar(idx / 100 % 10),
                              DigitChar(idx / 10 % 10), DigitChar(idx % 10)]
  {
    CustomIdLength(idx);
    CustomIdSpec(idx);
    var id := CustomId(idx);
    var d := id[1..];
    ValueOfFour(d);
    SplitFourDigits(DigitVal(d[0]), DigitVal(d[1]), DigitVal(d[2]), DigitVal(d[3]), idx);
    DigitCharVal(d[0]);
    DigitCharVal(d[1]);
    DigitCharVal(d[2]);
    DigitCharVal(d[3]);
    assert id == ['q', d[0], d[1], d[2], d[3]];
  }

  lemma ValueOfFour(d: string)
    requires |d| == 4 && AllDigits(d)
    ensures Value(d) == DigitVal(d[0]) * 1000 + DigitVal(d[1]) * 100 + DigitVal(d[2]) * 10 + DigitVal(d[3])
  {
    assert d[..3][..2][..1][..0] == [];
    assert d[..3][..2][..1] == d[..1] && d[..3][..2] == d[..2];
    assert Value(d[..1]) == DigitVal(d[0]);
    assert Value(d[..2]) == DigitVal(d[0]) * 10 + DigitVal(d[1]);
    assert Value(d[..3]) == DigitVal(d[0]) * 100 + DigitVal(d[1]) * 10 + DigitVal(d[2]);
  }

  lemma SplitFourDigits(a: nat, b: nat, c: nat, e: nat, n: nat)
    requires a < 10 && b < 10 && c < 10 && e < 10
    requires n == a * 1000 + b * 100 + c * 10 + e
    ensures a == n / 1000 && b == n / 100 % 10 && c == n / 10 % 10 && e == n % 10
  {
    assert n == a * 1000 + (b * 100 + c * 10 + e);
    assert n == (a * 10 + b) * 100 + (c * 10 + e);
    assert n == (a * 100 + b * 10 + c) * 10 + e;
  }

  lemma DigitCharVal(c: char)
    requires IsDigit(c)
    ensures DigitChar(DigitVal(c)) == c
  {
  }

  /** Distinct positions never share an identifier, so no request shadows another. */
  lemma CustomIdInjective(i: nat, j: nat)
    requires i != j
    ensures CustomId(i) != CustomId(j)
  {
    CustomIdSpec(i);
    CustomIdSpec(j);
  }
}
