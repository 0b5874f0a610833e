/** Fixed-point decimals scaled by 10^8: the parser of src/decimal.hpp and the printer of
    src/subscriber_protocol.hpp. */
module Decimal {
  import opened Int64
  import opened Wrappers
  import opened SafeArithmetic

  const SCALE: int64 := 100_000_000
  const PLACES: nat := 8
  const POW10: seq<int64> := [100_000_000, 10_000_000, 1_000_000, 100_000, 10_000, 1_000, 100, 10, 1]

  predicate IsDigit(c: char) { '0' <= c <= '9' }

  predicate Digits(s: string) { forall i :: 0 <= i < |s| ==> IsDigit(s[i]) }

  function DigitValue(c: char): int
    requires IsDigit(c)
  {
    c as int - '0' as int
  }

  /** The ten digits in order. */
  lemma DigitValues(i: nat)
    requires i < 10
    ensures IsDigit("0123456789"[i]) && DigitValue("0123456789"[i]) == i
  {
  }

  /** What a string of digits denotes; the empty string denotes 0. */
  function Value(s: string): (v: int)
    requires Digits(s)
    ensures v >= 0
  {
    if s == [] then 0 else Value(s[..|s| - 1]) * 10 + DigitValue(s[|s| - 1])
  }

  // ---------------------------------------------------------------- values of digit strings

  function Pow(n: nat): nat {
    if n == 0 then 1 else 10 * Pow(n - 1)
  }

  lemma {:induction false} ValueBound(s: string)
    requires Digits(s)
    ensures Value(s) < Pow(|s|)
  {
    if s == [] {
    } else {
      ValueBound(s[..|s| - 1]);
    }
  }

  function Zeros(n: nat): string { seq(n, _ => '0') }

  lemma TimesTen(x: int, y: int)
    ensures x * y * 10 == x * (10 * y)
  {
  }

  lemma {:induction false} ValueAppend(a: string, b: string)
    requires Digits(a) && Digits(b)
    ensures Digits(a + b) && Value(a + b) == Value(a) * Pow(|b|) + Value(b)
  {
    if b == [] {
      assert a + b == a;
    } else {
      var n := |b| - 1;
      ValueAppend(a, b[..n]);
      assert (a + b)[..|a + b| - 1] == a + b[..n];
      TimesTen(Value(a), Pow(n));
    }
  }

  lemma {:induction false} ValueOfZeros(n: nat)
    ensures Digits(Zeros(n)) && Value(Zeros(n)) == 0
  {
    if n == 0 {
    } else {
      ValueOfZeros(n - 1);
      assert Zeros(n)[..n - 1] == Zeros(n - 1);
    }
  }

  /** The table of powers pads to eight places. */
  lemma PowTable(n: nat)
    requires n <= PLACES
    ensures POW10[n] == Pow(PLACES - n) && Pow(n) * Pow(PLACES - n) == SCALE
  {
    assert Pow(1) == 10 && Pow(2) == 100 && Pow(3) == 1_000 && Pow(4) == 10_000;
    assert Pow(5) == 100_000 && Pow(6) == 1_000_000 && Pow(7) == 10_000_000 && Pow(8) == 100_000_000;
  }

  lemma PaddingFits(frac: string)
    requires |frac| <= PLACES && Digits(frac)
    ensures 0 <= Value(frac) * POW10[|frac|] < SCALE
    ensures Value(frac) * POW10[|frac|] == Value(frac + Zeros(PLACES - |frac|))
    ensures Digits(frac + Zeros(PLACES - |frac|))
  {
    PowTable(|frac|);
    ValueBound(frac);
    ValueOfZeros(PLACES - |frac|);
    ValueAppend(frac, Zeros(PLACES - |frac|));
    ValueBound(frac + Zeros(PLACES - |frac|));
    PowTable(PLACES);
  }

  // ---------------------------------------------------------------- the parser

  /** `std::from_chars` on the whole of `s`: an optional minus, at least one digit, in range. */
  function FromChars(s: string): Option<int64> {
    var digits := if s != [] && s[0] == '-' then s[1..] else s;
    if digits == [] || !Digits(digits) then None
    else
      var v := if s[0] == '-' then -Value(digits) else Value(digits);
      if Fits(v) then Some(v) else None
  }

  /** The first dot, or the length of the string. */
  function FindDot(s: string): (i: nat)
    ensures i <= |s| && (i < |s| ==> s[i] == '.') && forall j :: 0 <= j < i ==> s[j] != '.'
  {
    if s == [] || s[0] == '.' then 0 else 1 + FindDot(s[1..])
  }

  function ParseFractionalPart(frac: string): Result<int64> {
    if frac == [] then Success(0)
    else if |frac| > PLACES then Failure("Too many fractional digits")
    else if !Digits(frac) then Failure("Failed to parse fractional part")
    else
      match FromChars(frac)
      case None => Failure("Failed to parse fractional part")
      case Some(v) =>
        ValueBound(frac);
        PaddingFits(frac);
        Success(v * POW10[|frac|])
  }

  function ParseDecimal(str: string): Result<int64> {
    var negative := str != [] && str[0] == '-';
    var dotPos := FindDot(str);
    if dotPos == |str| then
      match FromChars(str)
      case None => Failure("Failed to parse integer")
      case Some(v) => SafeMultiply(v, SCALE)
    else if str == "." then Failure("Failed to parse decimal: .")
    else
      var intPart := if dotPos > 0 then FromChars(str[..dotPos]) else Some(0);
      if intPart.None? then Failure("Failed to parse integer part")
      else
        match ParseFractionalPart(str[dotPos + 1..])
        case Failure(e) => Failure(e)
        case Success(fracPart) =>
          match SafeMultiply(intPart.value, SCALE)
          case Failure(e) => Failure(e)
          case Success(scaled) =>
            if negative then SafeSubtract(scaled, fracPart) else SafeAdd(scaled, fracPart)
  }

  // ---------------------------------------------------------------- the grammar

  /** A decimal numeral: sign, digits before the point, and digits after it, if there is one. */
  datatype Numeral = Numeral(negative: bool, whole: string, frac: Option<string>) {
    function Frac(): string { if frac.Some? then frac.value else "" }

    /** At most eight places, a digit somewhere, and one before the point after a minus. */
    predicate WellFormed() {
      && Digits(whole) && Digits(Frac()) && |Frac()| <= PLACES
      && (whole == "" ==> !negative && Frac() != "")
    }

    function Text(): string {
      (if negative then "-" else "") + whole + (if frac.Some? then "." + frac.value else "")
    }

    /** The denoted number times 10^8: the digits read as one integer with eight places. */
    function Scaled(): int
      requires WellFormed()
    {
      ValueOfZeros(PLACES - |Frac()|);
      ValueAppend(Frac(), Zeros(PLACES - |Frac()|));
      ValueAppend(whole, Frac() + Zeros(PLACES - |Frac()|));
      var v := Value(whole + (Frac() + Zeros(PLACES - |Frac()|)));
      if negative then -v else v
    }
  }

  /** The signed integer before the point. */
  function WholeValue(n: Numeral): int
    requires n.WellFormed()
  {
    if n.negative then -Value(n.whole) else Value(n.whole)
  }

  /** The digits after the point, in units of 10^-8. */
  function FracValue(frac: string): (f: int64)
    requires Digits(frac) && |frac| <= PLACES
    ensures 0 <= f < SCALE
  {
    PaddingFits(frac);
    Value(frac) * POW10[|frac|]
  }

  function Combine(negative: bool, w: int, f: int): int {
    if negative then w * SCALE - f else w * SCALE + f
  }

  lemma ScaledParts(n: Numeral)
    requires n.WellFormed()
    ensures n.Scaled() == Combine(n.negative, WholeValue(n), FracValue(n.Frac()))
  {
    var eight := n.Frac() + Zeros(PLACES - |n.Frac()|);
    PaddingFits(n.Frac());
    PowTable(PLACES);
    ValueAppend(n.whole, eight);
    assert Pow(|eight|) == SCALE;
  }

  /** Where the parser cuts the text. */
  lemma TextParts(n: Numeral)
    requires n.WellFormed()
    ensures var s, w := n.Text(), (if n.negative then "-" else "") + n.whole;
            && FindDot(s) == |w| && s[..|w|] == w
            && (n.frac.None? ==> s == w)
            && (n.frac.Some? ==> |w| < |s| && s[|w| + 1..] == n.frac.value && s != ".")
            && (s != [] && s[0] == '-' <==> n.negative)
  {
    var s, w := n.Text(), (if n.negative then "-" else "") + n.whole;
    assert s[..|w|] == w;
    assert forall j :: 0 <= j < |w| ==> s[j] == w[j] && w[j] != '.';
    if n.frac.Some? {
      assert s[|w|] == '.';
      assert s[|w| + 1..] == n.frac.value;
      assert n.whole == "" ==> |s| > 1;
    }
  }

  lemma SignedFromChars(negative: bool, whole: string)
    requires Digits(whole) && whole != ""
    ensures var v := if negative then -Value(whole) else Value(whole);
            FromChars((if negative then "-" else "") + whole) == if Fits(v) then Some(v) else None
  {
    if negative {
      assert ("-" + whole)[1..] == whole;
    } else {
      assert "" + whole == whole;
    }
  }

  lemma ParseWhole(n: Numeral)
    requires n.WellFormed() && n.frac.None?
    ensures FracValue(n.Frac()) == 0
    ensures ParseDecimal(n.Text()) == if Fits(WholeValue(n)) then SafeMultiply(WholeValue(n), SCALE)
                                      else Failure("Failed to parse integer")
  {
    TextParts(n);
    SignedFromChars(n.negative, n.whole);
  }

  /** The last steps of the parser, on the two parts of a numeral with a point. */
  function Assemble(negative: bool, w: int, f: int64): Result<int64> {
    if !Fits(w) then Failure("Failed to parse integer part")
    else
      match SafeMultiply(w, SCALE)
      case Failure(e) => Failure(e)
      case Success(scaled) => if negative then SafeSubtract(scaled, f) else SafeAdd(scaled, f)
  }

  lemma FractionExact(frac: string)
    requires Digits(frac) && |frac| <= PLACES
    ensures ParseFractionalPart(frac) == Success(FracValue(frac))
  {
    ValueBound(frac);
    PowTable(|frac|);
    PowTable(PLACES);
    PaddingFits(frac);
    if frac != "" {
      SignedFromChars(false, frac);
      assert "" + frac == frac;
    }
  }

  lemma ParsePointed(n: Numeral)
    requires n.WellFormed() && n.frac.Some?
    ensures ParseDecimal(n.Text()) == Assemble(n.negative, WholeValue(n), FracValue(n.frac.value))
  {
    TextParts(n);
    FractionExact(n.frac.value);
    if n.whole != "" {
      SignedFromChars(n.negative, n.whole);
    }
  }

  /** No intermediate step overflows unless the result does. */
  lemma AssembleExact(negative: bool, w: int, f: int64)
    requires 0 <= f < SCALE && (if negative then w <= 0 else w >= 0)
    ensures Assemble(negative, w, f).Success? <==> Fits(Combine(negative, w, f))
    ensures Fits(Combine(negative, w, f)) ==> Assemble(negative, w, f) == Success(Combine(negative, w, f))
    ensures Fits(w * SCALE) ==> Fits(w) && SafeMultiply(w, SCALE) == Success(w * SCALE)
    ensures Fits(w) && !Fits(w * SCALE) ==> SafeMultiply(w, SCALE).Failure?
  {
    if Fits(w) {
      ExactOrError(w, SCALE);
      if Fits(w * SCALE) {
        ExactOrError(w * SCALE, f);
      }
    }
  }

  /** On every numeral the parser returns exactly the denoted value times 10^8 when it fits 64
      bits, and an error when it does not. */
  lemma ParseExact(n: Numeral)
    requires n.WellFormed()
    ensures ParseDecimal(n.Text()).Success? <==> Fits(n.Scaled())
    ensures Fits(n.Scaled()) ==> ParseDecimal(n.Text()) == Success(n.Scaled())
  {
    ScaledParts(n);
    AssembleExact(n.negative, WholeValue(n), FracValue(n.Frac()));
    if n.frac.None? {
      ParseWhole(n);
    } else {
      ParsePointed(n);
    }
  }

  /** How a text reads as a numeral, when it is one. */
  function Reading(s: string): Numeral {
    var dotPos := FindDot(s);
    var negative := s != [] && s[0] == '-';
    var head := s[..dotPos];
    Numeral(negative, if negative then head[1..] else head,
            if dotPos == |s| then None else Some(s[dotPos + 1..]))
  }

  /** What each part of an accepted text must be. */
  lemma AcceptedParts(s: string)
    requires ParseDecimal(s).Success?
    ensures s != "" && s != "."
    ensures FindDot(s) > 0 ==> FromChars(s[..FindDot(s)]).Some?
    ensures FindDot(s) < |s| ==> Digits(s[FindDot(s) + 1..]) && |s[FindDot(s) + 1..]| <= PLACES
  {
    var dotPos := FindDot(s);
    if dotPos == |s| {
      assert s[..dotPos] == s;
    } else {
      assert ParseFractionalPart(s[dotPos + 1..]).Success?;
    }
  }

  lemma ReadingText(s: string)
    ensures Reading(s).Text() == s
  {
    var n, dotPos := Reading(s), FindDot(s);
    var head := s[..dotPos];
    assert n.negative ==> dotPos > 0;
    assert head == (if n.negative then "-" else "") + n.whole;
    if dotPos < |s| {
      assert s == head + ("." + s[dotPos + 1..]);
    } else {
      assert s == head + "";
    }
  }

  /** `FromChars` accepts digits only, at least one, after at most one minus. */
  lemma OnlyDigits(s: string)
    requires FromChars(s).Some?
    ensures var digits := if s != [] && s[0] == '-' then s[1..] else s;
            digits != "" && Digits(digits)
  {
  }

  /** Nothing else is accepted. */
  lemma ParseOnlyNumerals(s: string)
    requires ParseDecimal(s).Success?
    ensures Reading(s).WellFormed() && Reading(s).Text() == s
  {
    AcceptedParts(s);
    ReadingText(s);
    var dotPos := FindDot(s);
    if dotPos > 0 {
      OnlyDigits(s[..dotPos]);
    } else {
      assert s[1..] == "" ==> s == ".";
    }
  }

  /** One is 10^8 units. */
  lemma OneIsScale()
    ensures ParseDecimal("1") == Success(100_000_000)
  {
    var n := Numeral(false, "1", None);
    assert "1"[..0] == "" && Value("1") == 1;
    assert n.Text() == "1";
    ScaledParts(n);
    ParseExact(n);
  }

  /** The eighth place is one unit. */
  lemma LastPlaceIsOne()
    ensures ParseDecimal("0.00000001") == Success(1)
  {
    var frac := Zeros(7) + "1";
    var n := Numeral(false, "0", Some(frac));
    assert frac[..7] == Zeros(7) && "0"[..0] == "";
    ValueOfZeros(7);
    assert Value(frac) == 1 && Value("0") == 0;
    assert n.Text() == "0.00000001";
    ScaledParts(n);
    ParseExact(n);
  }

  /** Without a digit before the point a text is accepted only if it has no sign, whatever its
      documentation says: ".5" is five tenths, "-.5" is an error. */
  lemma PointFirst(frac: string)
    requires Digits(frac) && 0 < |frac| <= PLACES
    ensures ParseDecimal("." + frac) == Success(FracValue(frac))
    ensures ParseDecimal("-." + frac).Failure?
  {
    var n := Numeral(false, "", Some(frac));
    assert n.Text() == "." + frac;
    ScaledParts(n);
    ParseExact(n);
    var s := "-." + frac;
    assert s[0] == '-' && s[1] == '.';
    if ParseDecimal(s).Success? {
      ParseOnlyNumerals(s);
    }
  }

  // ---------------------------------------------------------------- the printer

  /** `std::to_string` of an unsigned number. */
  function ToString(n: nat): (s: string)
    ensures Digits(s) && s != "" && Value(s) == n
    ensures |s| > 1 ==> s[0] != '0'
  {
    var last := ['0' + (n % 10) as char];
    if n < 10 then
      assert last[..0] == [];
      last
    else
      var rest := ToString(n / 10);
      assert (rest + last)[..|rest|] == rest;
      rest + last
  }

  function TrimZeros(s: string): string {
    if s != [] && s[|s| - 1] == '0' then TrimZeros(s[..|s| - 1]) else s
  }

  lemma OneMoreZero(r: string, t: string, n: nat)
    requires t + Zeros(n) == r
    ensures t + Zeros(n + 1) == r + "0"
  {
    assert Zeros(n + 1) == Zeros(n) + "0";
  }

  lemma {:induction false} TrimZerosPads(s: string)
    ensures |TrimZeros(s)| <= |s| && TrimZeros(s) + Zeros(|s| - |TrimZeros(s)|) == s
    ensures Digits(s) ==> Digits(TrimZeros(s))
    ensures TrimZeros(s) != [] ==> TrimZeros(s)[|TrimZeros(s)| - 1] != '0'
  {
    if s != [] && s[|s| - 1] == '0' {
      var r := s[..|s| - 1];
      TrimZerosPads(r);
      OneMoreZero(r, TrimZeros(r), |r| - |TrimZeros(r)|);
      assert s == r + "0";
    } else {
      assert s + Zeros(0) == s;
    }
  }

  function Abs(x: int): nat { if x < 0 then -x else x }

  function PadLeft(s: string): string { if |s| < PLACES then Zeros(PLACES - |s|) + s else s }

  /** The canonical numeral of a scaled value. */
  function Canonical(x: int64): Numeral {
    Numeral(x < 0, ToString(Abs(x) / SCALE),
            if Abs(x) % SCALE == 0 then None else Some(TrimZeros(PadLeft(ToString(Abs(x) % SCALE)))))
  }

  const TWO64: int := 0x1_0000_0000_0000_0000

  /** The magnitude, negated as an unsigned number so that the minimum has one too. */
  method Magnitude(scaled: int64) returns (absScaled: nat)
    ensures absScaled == Abs(scaled) && absScaled < TWO64
  {
    var unsigned: int := if scaled < 0 then scaled + TWO64 else scaled;
    absScaled := if scaled < 0 then (TWO64 - unsigned) % TWO64 else unsigned;
  }

  method PadToPlaces(digits: string) returns (frac: string)
    ensures frac == PadLeft(digits)
  {
    frac := digits;
    assert Zeros(0) + digits == frac;
    while |frac| < PLACES
      invariant |frac| >= |digits| && frac == Zeros(|frac| - |digits|) + digits
      invariant |frac| <= PLACES || frac == digits
      decreases PLACES - |frac|
    {
      assert "0" + Zeros(|frac| - |digits|) == Zeros(|frac| + 1 - |digits|);
      frac := "0" + frac;
    }
    assert |digits| >= PLACES ==> frac == digits;
  }

  method DropTrailingZeros(padded: string) returns (frac: string)
    ensures frac == TrimZeros(padded)
  {
    frac := padded;
    while frac != "" && frac[|frac| - 1] == '0'
      invariant TrimZeros(frac) == TrimZeros(padded)
      decreases |frac|
    {
      frac := frac[..|frac| - 1];
    }
  }

  lemma TextOf(n: Numeral)
    ensures n.Text() == var t := if n.frac.Some? then n.whole + ("." + n.frac.value) else n.whole;
                        if n.negative then "-" + t else t
  {
    if n.negative {
      assert "-" + n.whole + (if n.frac.Some? then "." + n.frac.value else "")
          == "-" + (n.whole + if n.frac.Some? then "." + n.frac.value else "");
    }
    assert n.whole + "" == n.whole && "" + n.whole == n.whole;
  }

  /** A number without leading zeros is at least the power of its last place. */
  lemma {:induction false} LeadingDigit(s: string)
    requires Digits(s) && s != "" && (s[0] != '0' || |s| == 1)
    ensures |s| > 1 ==> Value(s) >= Pow(|s| - 1)
    ensures s[0] != '0' ==> Value(s) >= Pow(|s| - 1)
  {
    if |s| == 1 {
      assert s[..0] == [];
    } else {
      LeadingDigit(s[..|s| - 1]);
    }
  }

  lemma {:induction false} PowGrows(a: nat, b: nat)
    requires a <= b
    ensures Pow(a) <= Pow(b)
  {
    if a < b {
      PowGrows(a, b - 1);
    }
  }

  lemma DigitsOfFraction(f: int)
    requires 0 < f < SCALE
    ensures |ToString(f)| <= PLACES && |PadLeft(ToString(f))| == PLACES
    ensures Digits(PadLeft(ToString(f))) && Value(PadLeft(ToString(f))) == f
    ensures TrimZeros(PadLeft(ToString(f))) != ""
  {
    var s := ToString(f);
    LeadingDigit(s);
    PowTable(PLACES);
    if |s| > PLACES {
      PowGrows(PLACES, |s| - 1);
    }
    ValueOfZeros(PLACES - |s|);
    ValueAppend(Zeros(PLACES - |s|), s);
    TrimZerosPads(PadLeft(s));
    ValueOfZeros(PLACES);
    assert "" + Zeros(PLACES) == Zeros(PLACES);
  }

  /** Trimming zeros off the eight digits of a fraction does not change its value. */
  lemma TrimmedFraction(f: int)
    requires 0 < f < SCALE
    ensures var t := TrimZeros(PadLeft(ToString(f)));
            t != "" && Digits(t) && |t| <= PLACES && FracValue(t) == f
  {
    var padded := PadLeft(ToString(f));
    var t := TrimZeros(padded);
    DigitsOfFraction(f);
    TrimZerosPads(padded);
    assert t + Zeros(PLACES - |t|) == padded;
    PaddingFits(t);
  }

  lemma CanonicalValue(x: int64, n: Numeral)
    requires n.WellFormed() && n.negative == (x < 0) && Value(n.whole) == Abs(x) / SCALE
    requires FracValue(n.Frac()) == Abs(x) % SCALE
    ensures n.Scaled() == x
  {
    ScaledParts(n);
  }

  /** The canonical numeral is well formed and denotes the value, down to the minimum of the
      64-bit range and including values between -1 and 0. */
  lemma CanonicalDenotes(x: int64)
    ensures Canonical(x).WellFormed() && Canonical(x).Scaled() == x
  {
    var f := Abs(x) % SCALE;
    if f != 0 {
      TrimmedFraction(f);
    }
    CanonicalValue(x, Canonical(x));
  }

  /** The parser reads back what the printer wrote, on the whole 64-bit range. */
  lemma ParseInvertsFormat(x: int64)
    ensures ParseDecimal(Canonical(x).Text()) == Success(x)
  {
    CanonicalDenotes(x);
    ParseExact(Canonical(x));
  }

  // ---------------------------------------------------------------- the shortest text

  /** A number is printed without leading zeros, so in the fewest digits. */
  lemma FewestDigits(s: string)
    requires Digits(s) && s != ""
    ensures |ToString(Value(s))| <= |s|
  {
    var t := ToString(Value(s));
    LeadingDigit(t);
    ValueBound(s);
    if |t| > |s| {
      PowGrows(|s|, |t| - 1);
    }
  }

  /** Digit strings of one length differ in value. */
  lemma {:induction false} SameDigits(a: string, b: string)
    requires Digits(a) && Digits(b) && |a| == |b| && Value(a) == Value(b)
    ensures a == b
  {
    if a == [] {
    } else {
      var n := |a| - 1;
      assert DigitValue(a[n]) == Value(a) % 10 && DigitValue(b[n]) == Value(b) % 10;
      SameDigits(a[..n], b[..n]);
      assert a == a[..n] + [a[n]] && b == b[..n] + [b[n]];
    }
  }

  /** A fraction without trailing zeros has the fewest places. */
  lemma FewestPlaces(frac: string)
    requires Digits(frac) && |frac| <= PLACES && FracValue(frac) > 0
    ensures |TrimZeros(PadLeft(ToString(FracValue(frac))))| <= |frac|
  {
    var f := FracValue(frac);
    var padded := PadLeft(ToString(f));
    var t := TrimZeros(padded);
    DigitsOfFraction(f);
    PaddingFits(frac);
    SameDigits(frac + Zeros(PLACES - |frac|), padded);
    TrimZerosPads(padded);
    assert t[|t| - 1] == padded[|t| - 1];
  }

  /** The parts of a numeral that denotes `x`. */
  lemma PartsOf(n: Numeral, x: int64)
    requires n.WellFormed() && n.Scaled() == x
    ensures Value(n.whole) == Abs(x) / SCALE && FracValue(n.Frac()) == Abs(x) % SCALE
    ensures x < 0 ==> n.negative
  {
    ScaledParts(n);
    var w, f: int := Value(n.whole), FracValue(n.Frac());
    assert Abs(x) == w * SCALE + f;
  }

  /** The canonical numeral has no leading and no trailing zeros. */
  lemma CanonicalIsNormal(x: int64)
    ensures var c := Canonical(x);
            && c.whole != "" && (|c.whole| > 1 ==> c.whole[0] != '0')
            && (c.frac.Some? ==> c.frac.value != "" && c.frac.value[|c.frac.value| - 1] != '0')
  {
    var f := Abs(x) % SCALE;
    if f > 0 {
      DigitsOfFraction(f);
      TrimZerosPads(PadLeft(ToString(f)));
    }
  }

  /** The printed text is the shortest there is: no numeral with a digit before the point that
      denotes the same value has a shorter one, and leaving that digit out saves one character. */
  lemma CanonicalIsShortest(n: Numeral, x: int64)
    requires n.WellFormed() && n.Scaled() == x
    ensures |Canonical(x).Text()| <= |n.Text()| + if n.whole == "" then 1 else 0
  {
    PartsOf(n, x);
    if n.whole != "" {
      FewestDigits(n.whole);
    }
    if FracValue(n.Frac()) > 0 {
      FewestPlaces(n.Frac());
    }
  }

  /** The numeral without the zero before the point. */
  function WithoutWhole(x: int64): Numeral {
    Numeral(false, "", Canonical(x).frac)
  }

  /** A shorter numeral than the printed one exists exactly for the values between 0 and 1. */
  lemma ShorterIff(x: int64)
    ensures (exists n: Numeral :: n.WellFormed() && n.Scaled() == x && |n.Text()| < |Canonical(x).Text()|) <==> 0 < x < SCALE
  {
    if 0 < x < SCALE {
      var n := WithoutWhole(x);
      CanonicalDenotes(x);
      CanonicalIsNormal(x);
      ScaledParts(n);
      ScaledParts(Canonical(x));
      assert n.WellFormed() && n.Scaled() == x && |n.Text()| < |Canonical(x).Text()|;
    }
    forall n: Numeral | n.WellFormed() && n.Scaled() == x && |n.Text()| < |Canonical(x).Text()|
      ensures 0 < x < SCALE
    {
      CanonicalIsShortest(n, x);
      PartsOf(n, x);
    }
  }

  /** `formatScaled`: the printed text is the canonical one and parses back to the value. */
  method FormatScaled(scaled: int64) returns (result: string)
    ensures result == Canonical(scaled).Text()
    ensures ParseDecimal(result) == Success(scaled)
  {
    var sign := scaled < 0;
    var absScaled := Magnitude(scaled);
    var intPart, fracPart := absScaled / SCALE, absScaled % SCALE;
    result := ToString(intPart);
    if fracPart != 0 {
      var frac := PadToPlaces(ToString(fracPart));
      frac := DropTrailingZeros(frac);
      result := result + ("." + frac);
    }
    if sign {
      result := "-" + result;
    }
    TextOf(Canonical(scaled));
    ParseInvertsFormat(scaled);
  }

  /** Different values are printed differently. */
  lemma FormatIsInjective(x: int64, y: int64)
    requires Canonical(x).Text() == Canonical(y).Text()
    ensures x == y
  {
    ParseInvertsFormat(x);
    ParseInvertsFormat(y);
  }

  /** Printing what was parsed gives the one canonical text of the denoted value: two texts get
      the same one exactly when they denote the same value, and a canonical text is left alone. */
  lemma FormatCanonicalises(s: string, t: string)
    requires ParseDecimal(s).Success? && ParseDecimal(t).Success?
    ensures Canonical(ParseDecimal(s).value).Text() == Canonical(ParseDecimal(t).value).Text()
            <==> Reading(s).WellFormed() && Reading(t).WellFormed() && Reading(s).Scaled() == Reading(t).Scaled()
    ensures ParseDecimal(Canonical(ParseDecimal(s).value).Text()) == ParseDecimal(s)
  {
    ParseOnlyNumerals(s);
    ParseOnlyNumerals(t);
    ParseExact(Reading(s));
    ParseExact(Reading(t));
    ParseInvertsFormat(ParseDecimal(s).value);
    ParseInvertsFormat(ParseDecimal(t).value);
  }
}
