/**
 The spelling of integers (core/data_model/document_writer.cpp, CWriter::integer)
 and its reading back: same value, with the notation that its digit count stands for.
 */
module TextNumbers {
  import opened N = LiveNode
  import Q = Quotients
  import L = TextLex
  import V = TextValues

  function DigitChar(d: nat): (c: char)
    requires d < 16
    ensures L.HexDigit(c) == d
  {
    if d < 10 then (48 + d) as char else (87 + d) as char
  }

  /** The shortest spelling of a number (to_chars). */
  function Digits(m: nat, base: nat): (s: string)
    requires 2 <= base <= 16
    ensures s != ""
    decreases m
  {
    if m < base then [DigitChar(m)] else
    QuotientSmaller(m, base);
    Digits(m / base, base) + [DigitChar(m % base)]
  }

  lemma QuotientSmaller(m: nat, base: nat)
    requires 2 <= base <= m
    ensures m / base < m
  {
    var q := m / base;
    Excess(q, base);
  }

  lemma Excess(q: nat, base: nat)
    requires base >= 2
    ensures base * q >= 2 * q
  {
    assert base * q == 2 * q + (base - 2) * q;
    assert (base - 2) * q >= 0;
  }

  ghost predicate AllOf(s: string, base: nat) {
    forall i :: 0 <= i < |s| ==> L.DigitOf(s[i], base)
  }

  lemma DivisionStep(m: nat, base: nat)
    requires base > 0
    ensures Q.Times(m / base, base) + m % base == m
  {
  }

  /** The digits of a number stand for it. */
  lemma {:induction false} DigitsMean(m: nat, base: nat)
    requires 2 <= base <= 16
    ensures AllOf(Digits(m, base), base) && V.Magnitude(Digits(m, base), base) == m
    decreases m
  {
    hide Q.Times;
    var s := Digits(m, base);
    if m < base {
      OneDigit(DigitChar(m), base);
    } else {
      QuotientSmaller(m, base);
      DigitsMean(m / base, base);
      DivisionStep(m, base);
      assert s[..|s| - 1] == Digits(m / base, base);
    }
  }

  lemma {:induction false} OneDigit(c: char, base: nat)
    requires L.DigitOf(c, base)
    ensures V.Magnitude([c], base) == L.HexDigit(c)
  {
    assert [c][..0] == "";
    assert Q.Times(0, base) == 0;
  }

  function Zeros(n: nat): string {
    seq(n, _ => '0')
  }

  /** Zeros in front change nothing. */
  lemma {:induction false} PaddedMagnitude(n: nat, s: string, base: nat)
    requires AllOf(s, base) && base >= 2
    ensures AllOf(Zeros(n) + s, base) && V.Magnitude(Zeros(n) + s, base) == V.Magnitude(s, base)
    decreases |s|, n
  {
    hide Q.Times;
    var padded := Zeros(n) + s;
    assert AllOf(padded, base);
    if s != "" {
      assert padded[..|padded| - 1] == Zeros(n) + s[..|s| - 1];
      PaddedMagnitude(n, s[..|s| - 1], base);
    } else if n > 0 {
      assert padded[..|padded| - 1] == Zeros(n - 1) + "";
      PaddedMagnitude(n - 1, "", base);
      ZeroTimes(base);
    }
  }

  lemma ZeroTimes(base: nat)
    ensures Q.Times(0, base) == 0
  {
  }

  // ---------------------------------------------------------------------
  // How many digits a number needs

  function Power(base: nat, n: nat): nat {
    if n == 0 then 1 else Q.Times(Power(base, n - 1), base)
  }

  lemma BelowQuotient(m: nat, base: nat, p: nat)
    requires base > 0 && m < Q.Times(p, base)
    ensures m / base < p
  {
    if m / base >= p {
      DivisionStep(m, base);
      ProductGrows(p, m / base, base);
    }
  }

  lemma ProductGrows(a: nat, b: nat, c: nat)
    requires a <= b
    ensures Q.Times(a, c) <= Q.Times(b, c)
  {
  }

  lemma {:induction false} DigitsShort(m: nat, base: nat, n: nat)
    requires 2 <= base <= 16 && n > 0 && m < Power(base, n)
    ensures |Digits(m, base)| <= n
    decreases n
  {
    hide Q.Times;
    if m >= base {
      QuotientSmaller(m, base);
      BelowQuotient(m, base, Power(base, n - 1));
      if n == 1 { PowerOne(base); }
      DigitsShort(m / base, base, n - 1);
    }
  }

  lemma {:induction false} PowerOne(base: nat)
    ensures Power(base, 1) == base
  {
  }

  lemma {:induction false} PowerAdd(base: nat, a: nat, b: nat)
    ensures Power(base, a + b) == Q.Times(Power(base, a), Power(base, b))
    decreases b
  {
    if b == 0 {
      Unit(Power(base, a));
    } else {
      PowerAdd(base, a, b - 1);
      Associate(Power(base, a), Power(base, b - 1), base);
    }
  }

  lemma Unit(x: nat)
    ensures Q.Times(x, 1) == x
  {
  }

  lemma Associate(x: nat, y: nat, z: nat)
    ensures Q.Times(Q.Times(x, y), z) == Q.Times(x, Q.Times(y, z))
  {
  }

  lemma ByteSizes()
    ensures Power(2, 8) == 0x100 && Power(2, 16) == 0x1_0000 && Power(2, 32) == 0x1_0000_0000 && Power(2, 64) == 0x1_0000_0000_0000_0000
    ensures Power(16, 2) == 0x100 && Power(16, 4) == 0x1_0000 && Power(16, 8) == 0x1_0000_0000 && Power(16, 16) == 0x1_0000_0000_0000_0000
  {
    PowerOne(2);
    PowerOne(16);
    PowerAdd(2, 1, 1);
    PowerAdd(2, 2, 2);
    PowerAdd(2, 4, 4);
    PowerAdd(2, 8, 8);
    PowerAdd(2, 16, 16);
    PowerAdd(2, 32, 32);
    PowerAdd(16, 1, 1);
    PowerAdd(16, 2, 2);
    PowerAdd(16, 4, 4);
    PowerAdd(16, 8, 8);
    hide Power;
  }

  // ---------------------------------------------------------------------
  // Spelling an integer

  function MinimumBinaryDigits(n: Notation): nat {
    match n
    case Binary8 => 8
    case Binary16 => 16
    case Binary32 => 32
    case Binary64 => 64
    case _ => 0
  }

  /** Twice the bytes of a width, for hexadecimal; eight times, for binary. */
  function Measured(base: nat, w: Width): nat {
    var unit := if base == 16 then 2 else 8;
    match w case Bits8 => unit case Bits16 => 2 * unit case Bits32 => 4 * unit case Bits64 => 8 * unit
  }

  function Larger(a: nat, b: nat): nat {
    if a > b then a else b
  }

  function MagnitudeOf(bits: Bits, m: Metadata): Bits {
    if m.domain.Signed? && SignedFromBits(bits) < 0 then -SignedFromBits(bits) else bits
  }

  predicate Hexadecimal(magnitude: nat, n: Notation) {
    MinimumHexDigits(n) != 0 && (n != DecimalOrHexadecimal || magnitude > 65535)
  }

  function BaseFor(magnitude: nat, n: Notation): (base: nat)
    ensures base == 2 || base == 10 || base == 16
  {
    if Hexadecimal(magnitude, n) then 16 else if MinimumBinaryDigits(n) != 0 then 2 else 10
  }

  function Padded(s: string, n: nat): string {
    if |s| < n then Zeros(n - |s|) + s else s
  }

  function SignText(bits: Bits, m: Metadata): string {
    if m.domain.Unsigned? then "" else if SignedFromBits(bits) < 0 then "-" else "+"
  }

  function PrefixText(base: nat, p: Prefix): string {
    if base == 16 then if p.Alternate? then "#" else "0x" else if base == 2 then "0b" else ""
  }

  function OutputDigits(base: nat, m: Metadata): nat {
    if base == 10 then 0 else Larger(Measured(base, m.width), if base == 16 then MinimumHexDigits(m.notation) else MinimumBinaryDigits(m.notation))
  }

  function BaseOf(bits: Bits, m: Metadata): (base: nat)
    ensures base == 2 || base == 10 || base == 16
  {
    BaseFor(MagnitudeOf(bits, m), m.notation)
  }

  function Numeral(bits: Bits, m: Metadata): string {
    Padded(Digits(MagnitudeOf(bits, m), BaseOf(bits, m)), OutputDigits(BaseOf(bits, m), m))
  }

  function IntegerText(bits: Bits, m: Metadata): string {
    SignText(bits, m) + (PrefixText(BaseOf(bits, m), m.prefix) + Numeral(bits, m))
  }

  /** What reading the spelling gives: the notation of its digit count, and no prefix intent without a prefix. */
  function Reread(bits: Bits, m: Metadata): Metadata {
    var base := BaseOf(bits, m);
    m.(notation := V.NotationOf(base, OutputDigits(base, m)), prefix := if base == 16 then m.prefix else Standard)
  }

  /** The padded digits are as many as the writer intends. */
  lemma NumeralLength(bits: Bits, m: Metadata)
    requires IntegerValid(bits, m) && BaseOf(bits, m) != 10
    ensures |Numeral(bits, m)| == OutputDigits(BaseOf(bits, m), m)
  {
    hide Power;
    ByteSizes();
    DigitsShort(MagnitudeOf(bits, m), BaseOf(bits, m), Measured(BaseOf(bits, m), m.width));
  }

  lemma {:induction false} PaddedMeans(s: string, n: nat, base: nat)
    requires AllOf(s, base) && s != "" && base >= 2
    ensures AllOf(Padded(s, n), base) && Padded(s, n) != "" && V.Magnitude(Padded(s, n), base) == V.Magnitude(s, base)
  {
    if |s| < n { PaddedMagnitude(n - |s|, s, base); }
  }

  lemma NumeralMeans(bits: Bits, m: Metadata)
    ensures var s, base := Numeral(bits, m), BaseOf(bits, m);
      AllOf(s, base) && s != "" && V.Magnitude(s, base) == MagnitudeOf(bits, m)
  {
    hide V.Magnitude, Digits, Padded, BaseFor, MagnitudeOf, OutputDigits;
    var base := BaseOf(bits, m);
    DigitsMean(MagnitudeOf(bits, m), base);
    PaddedMeans(Digits(MagnitudeOf(bits, m), base), OutputDigits(base, m), base);
  }

  lemma {:induction false} AllLeading(s: string, base: nat)
    requires AllOf(s, base)
    ensures V.LeadingDigits(s, base) == s && L.AfterDigits(s, base) == ""
  {
    if s != "" {
      AllLeading(s[1..], base);
      assert [s[0]] + s[1..] == s;
    }
  }

  lemma PrefixFound(base: nat, p: Prefix, digits: string)
    requires digits != "" && AllOf(digits, base) && (base == 2 || base == 10 || base == 16)
    ensures var s := PrefixText(base, p) + digits;
      (s[0] == '#' || L.IsDigit(s[0])) && L.SpellingOf(s) == L.Spelling(base, base == 16 && p.Alternate?, digits)
  {
    var s := PrefixText(base, p) + digits;
    assert L.DigitOf(digits[0], base);
    if base == 10 && |digits| > 1 { assert L.DigitOf(digits[1], 10); }
    if base == 16 && p.Alternate? { assert s[1..] == digits; } else if base != 10 { assert s[2..] == digits; } else { assert s == digits; }
  }

  /** The parts of a spelling are found again. */
  lemma SpellingParts(bits: Bits, m: Metadata)
    ensures L.SpellingOf(L.Unsign(IntegerText(bits, m)))
         == L.Spelling(BaseOf(bits, m), BaseOf(bits, m) == 16 && m.prefix.Alternate?, Numeral(bits, m))
    ensures var text := IntegerText(bits, m);
      && text != "" && (text[0] == '+' || text[0] == '-' || text[0] == '#' || L.IsDigit(text[0])) && (text[0] == '-' <==> m.domain.Signed? && SignedFromBits(bits) < 0)
      && (text[0] == '+' <==> m.domain.Signed? && SignedFromBits(bits) >= 0)
  {
    hide Numeral, BaseOf, AllOf, SignedFromBits, L.SpellingOf;
    NumeralMeans(bits, m);
    PrefixFound(BaseOf(bits, m), m.prefix, Numeral(bits, m));
    var body := PrefixText(BaseOf(bits, m), m.prefix) + Numeral(bits, m);
    var text := SignText(bits, m) + body;
    assert m.domain.Signed? ==> text[1..] == body;
    assert m.domain.Unsigned? ==> text == body;
  }

  /** An integer that is written reads back as it was, with the notation of its digit count. */
  lemma IntegerReads(bits: Bits, m: Metadata)
    requires IntegerValid(bits, m)
    ensures V.IntegerOf(IntegerText(bits, m)) == V.Number(bits, Reread(bits, m))
  {
    hide Numeral, V.Magnitude, V.LeadingDigits, L.AfterDigits, L.SpellingOf, L.Unsign, IntegerText, AllOf, OutputDigits;
    SpellingParts(bits, m);
    NumeralMeans(bits, m);
    AllLeading(Numeral(bits, m), BaseOf(bits, m));
    if BaseOf(bits, m) != 10 { NumeralLength(bits, m); }
  }

  lemma RereadSame(bits: Bits, m: Metadata)
    requires IntegerValid(bits, m)
    ensures var r := Reread(bits, m);
      && IntegerValid(bits, r) && BaseOf(bits, r) == BaseOf(bits, m) && OutputDigits(BaseOf(bits, m), r) == OutputDigits(BaseOf(bits, m), m)
      && PrefixText(BaseOf(bits, m), r.prefix) == PrefixText(BaseOf(bits, m), m.prefix) && MagnitudeOf(bits, r) == MagnitudeOf(bits, m)
  {
  }

  /** Writing again what was read gives the same text. */
  lemma IntegerSettles(bits: Bits, m: Metadata)
    requires IntegerValid(bits, m)
    ensures IntegerValid(bits, Reread(bits, m)) && IntegerText(bits, Reread(bits, m)) == IntegerText(bits, m)
  {
    hide Digits, Reread, OutputDigits, BaseOf, MagnitudeOf, SignedFromBits, PrefixText;
    RereadSame(bits, m);
    SameSign(bits, m);
  }

  lemma SameSign(bits: Bits, m: Metadata)
    ensures SignText(bits, Reread(bits, m)) == SignText(bits, m)
  {
  }

  lemma {:induction false} DigitsLead(m: nat, base: nat)
    requires 2 <= base <= 16
    ensures if m == 0 then Digits(m, base) == "0" else Digits(m, base)[0] != '0'
    decreases m
  {
    if m >= base {
      QuotientSmaller(m, base);
      QuotientPositive(m, base);
      DigitsLead(m / base, base);
    }
  }

  lemma QuotientPositive(m: nat, base: nat)
    requires 0 < base <= m
    ensures m / base > 0
  {
  }

  lemma {:induction false} DecimalScans(m: nat)
    ensures L.DecimalKind(Digits(m, 10)) == L.IntegerNumber
  {
    hide L.AfterDigits, Digits, V.Magnitude;
    var s := Digits(m, 10);
    DigitsLead(m, 10);
    DigitsMean(m, 10);
    assert L.DigitOf(s[0], 10);
    assert AllOf(s[1..], 10) by { forall i | 0 <= i < |s| - 1 ensures L.DigitOf(s[1..][i], 10) { assert s[1..][i] == s[i + 1]; } }
    AllLeading(s[1..], 10);
  }

  /** The spelling scans as an integer, and as nothing else. */
  lemma IntegerScans(bits: Bits, m: Metadata)
    ensures L.WordKind(IntegerText(bits, m)) == L.IntegerNumber
  {
    hide Numeral, V.Magnitude, L.AfterDigits, L.SpellingOf, BaseOf, SignedFromBits, IntegerText, L.DecimalKind, AllOf, L.Unsign;
    SpellingParts(bits, m);
    NumeralMeans(bits, m);
    AllLeading(Numeral(bits, m), BaseOf(bits, m));
    if BaseOf(bits, m) == 10 {
      DecimalNumeral(bits, m);
      DecimalScans(MagnitudeOf(bits, m));
    }
  }

  lemma DecimalNumeral(bits: Bits, m: Metadata)
    requires BaseOf(bits, m) == 10
    ensures Numeral(bits, m) == Digits(MagnitudeOf(bits, m), 10)
  {
  }

  predicate WordChar(c: char) {
    !L.Boundary(c) && c != '\\'
  }

  /** No character of the spelling ends a word. */
  lemma IntegerChars(bits: Bits, m: Metadata)
    ensures forall i :: 0 <= i < |IntegerText(bits, m)| ==> WordChar(IntegerText(bits, m)[i])
  {
    hide Numeral, V.Magnitude, BaseOf, SignedFromBits;
    NumeralMeans(bits, m);
    var digits := Numeral(bits, m);
    forall i | 0 <= i < |digits| ensures WordChar(digits[i]) { assert L.DigitOf(digits[i], BaseOf(bits, m)); }
  }
}
