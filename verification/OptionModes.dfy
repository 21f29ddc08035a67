/** How the options of an item are priced, and what an app that does not know the modes sends
    (backend/internal/catalog/option_modes.go, and insertModifiers in menu.go).

    `parse` is strconv.ParseFloat: None for an error and for what is not finite. */
module OptionModes {
  import opened Common
  import opened Text
  import opened Menu

  const MAX_GRAMS := 1_000_000
  const DEFAULT_BASE := 100
  const QUARTER_KILO := "ربع كيلو"
  const HALF_A_KILO := "نص كيلو"
  const HALF_KILO := "نصف كيلو"
  const KILO := "كيلو"
  const KILOGRAM := "كيلو غرام"
  const KG := "كغ"
  const KILO_AND_HALF := "كيلو ونصف"
  const HALF := "نصف"
  const AND_HALF := "ونصف"
  const GRAM := "غرام"
  const G := "غ"

  // ---------------------------------------------------------------------------------------
  // Weights and their names
  // ---------------------------------------------------------------------------------------

  /** A number in decimal digits (strconv.Itoa). */
  function Itoa(n: nat): (s: string)
    ensures IsDigits(s)
  {
    if n < 10 then ['0' + n as char] else Itoa(n / 10) + ['0' + (n % 10) as char]
  }

  predicate IsDigits(s: string) {
    s != [] && forall i :: 0 <= i < |s| ==> '0' <= s[i] <= '9'
  }

  function ValueOf(s: string): nat
    requires forall i :: 0 <= i < |s| ==> '0' <= s[i] <= '9'
  {
    if s == [] then 0 else ValueOf(s[..|s| - 1]) * 10 + (s[|s| - 1] - '0') as nat
  }

  lemma {:induction false} ValueOfItoa(n: nat)
    ensures ValueOf(Itoa(n)) == n
  {
    if n < 10 {
      assert Itoa(n)[..0] == [];
    } else {
      ValueOfItoa(n / 10);
      assert Itoa(n)[..|Itoa(n)| - 1] == Itoa(n / 10);
    }
  }

  /** Decimal digits are read as their value, with ".5" behind them as a half more. */
  ghost predicate ReadsDecimals(parse: string -> Option<real>) {
    forall s :: IsDigits(s) ==>
        parse(s) == Some(ValueOf(s) as real) && parse(s + ".5") == Some(ValueOf(s) as real + 0.5)
  }

  function WeightName(g: nat): string {
    if g == 500 then HALF_KILO
    else if g == 1000 then KILO
    else if g == 1500 then KILO_AND_HALF
    else if g > 1000 && g % 500 == 0 then KiloText(g) + " " + KILO
    else Itoa(g) + " " + G
  }

  /** A multiple of 500 grams in kilos (strconv.FormatFloat). */
  function KiloText(g: nat): string {
    if g % 1000 == 500 then Itoa(g / 1000) + ".5" else Itoa(g / 1000)
  }

  function LatinDigit(c: char): char {
    if '\U{0660}' <= c <= '\U{0669}' then '0' + (c - '\U{0660}')
    else if c == '\U{066B}' then '.'
    else c
  }

  function LatinDigits(s: string): (t: string)
    ensures |t| == |s|
  {
    seq(|s|, i requires 0 <= i < |s| => LatinDigit(s[i]))
  }

  predicate HasSuffix(s: string, x: string) {
    |x| <= |s| && s[|s| - |x|..] == x
  }

  /** The weights with a name of their own; 0 for any other name. */
  function Named(s: string): (n: int)
    ensures n == 0 || n == 250 || n == 500 || n == 1000
  {
    if s == QUARTER_KILO then 250
    else if s == HALF_A_KILO || s == HALF_KILO then 500
    else if s == KILO || s == KILOGRAM || s == KG then 1000
    else 0
  }

  /** The unit a name ends with, empty when there is none. */
  function UnitOf(s: string): (u: string)
    ensures |u| <= |s|
  {
    if HasSuffix(s, KILO) then KILO
    else if HasSuffix(s, KG) then KG
    else if HasSuffix(s, GRAM) then GRAM
    else if HasSuffix(s, G) then G
    else ""
  }

  function Factor(unit: string): real {
    if unit == KILO || unit == KG then 1000.0 else 1.0
  }

  /** A number of units in grams; 0 when it is not a number or not a weight. */
  function Measure(v: Option<real>, factor: real): (n: int)
    ensures n <= MAX_GRAMS
  {
    if v.None? || v.value <= 0.0 || v.value * factor > MAX_GRAMS as real then 0 else (v.value * factor + 0.5).Floor
  }

  /** The weight a name speaks of; 0 when it is not understood. */
  function GramsFromName(parse: string -> Option<real>, name: string): (n: int)
    ensures n <= MAX_GRAMS
  {
    var s := TrimSpace(LatinDigits(name));
    var unit := UnitOf(s);
    if Named(s) != 0 then Named(s)
    else if unit == "" then 0
    else Measure(parse(TrimSpace(s[..|s| - |unit|])), Factor(unit))
  }

  /** A decimal number, as text. */
  ghost predicate Numeral(num: string) {
    num != [] && '0' <= num[0] <= '9' && forall i :: 0 <= i < |num| ==> '0' <= num[i] <= '9' || num[i] == '.'
  }

  /** Nothing to translate to Latin digits, and no white space. */
  ghost predicate Plain(s: string) {
    forall i :: 0 <= i < |s| ==> !('\U{0660}' <= s[i] <= '\U{0669}') && s[i] != '\U{066B}' && !IsSpace(s[i])
  }

  predicate ArabicLetters(s: string) {
    s == [] || ('\U{0627}' <= s[0] <= '\U{064A}' && ArabicLetters(s[1..]))
  }

  lemma ArabicIsPlain(s: string)
    requires ArabicLetters(s)
    ensures Plain(s)
  {
    if s != [] {
      ArabicIsPlain(s[1..]);
      assert forall i :: 1 <= i < |s| ==> s[i] == s[1..][i - 1];
    }
  }

  lemma PlainText(s: string)
    requires s == HALF || s == KILO || s == AND_HALF || s == G
    ensures s != [] && Plain(s)
  {
    assert ArabicLetters(KILO) && ArabicLetters(G) && ArabicLetters(AND_HALF) && ArabicLetters(HALF);
  }

  lemma TrimsLastBlank(a: string)
    requires a != [] && Plain(a)
    ensures TrimSpace(a + " ") == a
  {
    var t := a + " ";
    assert !IsSpace(a[0]) && !IsSpace(a[|a| - 1]);
    assert TrimLeft(t) == t;
    assert t[..|t| - 1] == a;
    assert TrimRight(t) == TrimRight(a);
  }

  lemma PlainIsLatin(a: string)
    requires Plain(a)
    ensures LatinDigits(a) == a
  {
    hide IsSpace;
  }

  lemma LatinDigitsJoin(a: string, b: string)
    ensures LatinDigits(a + " " + b) == LatinDigits(a) + " " + LatinDigits(b)
  {
  }

  lemma TwoWords(a: string, b: string)
    requires a != [] && b != [] && Plain(a) && Plain(b)
    ensures TrimSpace(LatinDigits(a + " " + b)) == a + " " + b
    ensures TrimSpace(a + " ") == a
  {
    hide LatinDigits, TrimSpace, IsSpace;
    TrimsLastBlank(a);
    PlainIsLatin(a);
    PlainIsLatin(b);
    LatinDigitsJoin(a, b);
    var s := a + " " + b;
    assert s[0] == a[0] && s[|s| - 1] == b[|b| - 1];
    TrimmedStays(s);
  }

  lemma OneWord(a: string)
    requires a != [] && Plain(a)
    ensures TrimSpace(LatinDigits(a)) == a
  {
    assert LatinDigits(a) == a;
    TrimmedStays(a);
  }

  lemma Suffix(s: string, x: string)
    requires x != [] && |x| <= |s|
    ensures HasSuffix(s, x) ==> s[|s| - 1] == x[|x| - 1] && (|x| > 1 ==> s[|s| - 2] == x[|x| - 2])
  {
    if HasSuffix(s, x) {
      assert s[|s| - |x|..][|x| - 1] == x[|x| - 1];
      if |x| > 1 {
        assert s[|s| - |x|..][|x| - 2] == x[|x| - 2];
      }
    }
  }

  lemma EndsInKilo(num: string)
    ensures UnitOf(num + " " + KILO) == KILO
  {
    var s := num + " " + KILO;
    assert s[|s| - |KILO|..] == KILO;
  }

  lemma EndsInG(num: string)
    ensures UnitOf(num + " " + G) == G
  {
    var s := num + " " + G;
    assert s[|s| - 1] == G[0] && s[|s| - 2] == ' ';
    assert s[|s| - 1..] == G;
    if |KILO| <= |s| {
      Suffix(s, KILO);
    }
    if |KG| <= |s| {
      Suffix(s, KG);
    }
    if |GRAM| <= |s| {
      Suffix(s, GRAM);
    }
  }

  lemma DigitsAreNoName(s: string)
    requires s != [] && '0' <= s[0] <= '9'
    ensures Named(s) == 0
  {
    assert QUARTER_KILO[0] > '9' && HALF_KILO[0] > '9' && HALF_A_KILO[0] > '9';
    assert KILO[0] > '9' && KILOGRAM[0] > '9' && KG[0] > '9';
  }

  lemma NumeralIsPlain(num: string)
    requires Numeral(num)
    ensures Plain(num) && num != [] && '0' <= num[0] <= '9'
  {
  }

  /** A numeral with a unit behind it is read as that many of the unit. */
  lemma ReadsMeasure(parse: string -> Option<real>, num: string, unit: string)
    requires Numeral(num) && (unit == KILO || unit == G)
    ensures GramsFromName(parse, num + " " + unit) == Measure(parse(num), Factor(unit))
  {
    hide UnitOf, Measure, Named, TrimSpace, LatinDigits, Numeral, Plain, Factor;
    NumeralIsPlain(num);
    PlainText(unit);
    TwoWords(num, unit);
    EndsInKilo(num);
    EndsInG(num);
    var s := num + " " + unit;
    DigitsAreNoName(s);
    assert s[..|s| - |unit|] == num + " ";
  }

  /** The name of a weight is read as that weight, but for 1500 grams, whose name has no unit behind it. */
  lemma GramsRoundTrip(parse: string -> Option<real>, g: nat)
    requires ReadsDecimals(parse) && 1 <= g <= MAX_GRAMS
    ensures GramsFromName(parse, WeightName(g)) == if g == 1500 then 0 else g
  {
    hide GramsFromName, KiloText, ReadsDecimals;
    FixedNames(parse);
    if g > 1500 && g % 500 == 0 {
      KilosRoundTrip(parse, g);
    } else if g != 500 && g != 1000 && g != 1500 {
      GramTextRoundTrip(parse, g);
    }
  }

  lemma FixedNames(parse: string -> Option<real>)
    ensures GramsFromName(parse, HALF_KILO) == 500
    ensures GramsFromName(parse, KILO) == 1000
    ensures GramsFromName(parse, KILO_AND_HALF) == 0
  {
    hide Measure, TrimSpace, LatinDigits, Plain, Factor;
    PlainText(HALF);
    PlainText(KILO);
    TwoWords(HALF, KILO);
    assert HALF_KILO == HALF + " " + KILO;
    OneWord(KILO);
    PlainText(AND_HALF);
    TwoWords(KILO, AND_HALF);
    assert KILO_AND_HALF == KILO + " " + AND_HALF;
    Suffix(KILO_AND_HALF, KILO);
    Suffix(KILO_AND_HALF, KG);
    Suffix(KILO_AND_HALF, GRAM);
    Suffix(KILO_AND_HALF, G);
  }

  lemma ReadsKilos(parse: string -> Option<real>, n: nat)
    requires ReadsDecimals(parse)
    ensures parse(Itoa(n)) == Some(n as real) && parse(Itoa(n) + ".5") == Some(n as real + 0.5)
  {
    ValueOfItoa(n);
  }

  lemma WholeMeasure(v: real, factor: real, g: nat)
    requires v * factor == g as real && v > 0.0 && 1 <= g <= MAX_GRAMS
    ensures Measure(Some(v), factor) == g
  {
    assert (g as real + 0.5).Floor == g;
  }

  lemma KilosRoundTrip(parse: string -> Option<real>, g: nat)
    requires ReadsDecimals(parse) && 1000 < g <= MAX_GRAMS && g % 500 == 0
    ensures GramsFromName(parse, KiloText(g) + " " + KILO) == g
  {
    hide GramsFromName, ReadsDecimals, Itoa, Measure;
    var n := g / 1000;
    ReadsKilos(parse, n);
    ReadsMeasure(parse, KiloText(g), KILO);
    var kilos := if g % 1000 == 500 then n as real + 0.5 else n as real;
    assert parse(KiloText(g)) == Some(kilos);
    assert g as real == kilos * 1000.0;
    WholeMeasure(kilos, 1000.0, g);
  }

  lemma GramTextRoundTrip(parse: string -> Option<real>, g: nat)
    requires ReadsDecimals(parse) && 1 <= g <= MAX_GRAMS
    ensures GramsFromName(parse, Itoa(g) + " " + G) == g
  {
    hide GramsFromName, Measure;
    ReadsKilos(parse, g);
    ReadsMeasure(parse, Itoa(g), G);
    WholeMeasure(g as real, 1.0, g);
  }

  /** A reader of decimals. */
  function Decimal(s: string): Option<real> {
    if IsDigits(s) then Some(ValueOf(s) as real)
    else if |s| > 2 && s[|s| - 2..] == ".5" && IsDigits(s[..|s| - 2]) then Some(ValueOf(s[..|s| - 2]) as real + 0.5)
    else None
  }

  lemma DecimalReads()
    ensures ReadsDecimals(Decimal)
  {
    forall s | IsDigits(s)
      ensures Decimal(s + ".5") == Some(ValueOf(s) as real + 0.5)
    {
      var t := s + ".5";
      assert t[|s|] == '.';
      assert t[..|t| - 2] == s && t[|t| - 2..] == ".5";
    }
  }

  /** Two weights never have the same name. */
  lemma WeightNameInjective(g: nat, h: nat)
    requires 1 <= g <= MAX_GRAMS && 1 <= h <= MAX_GRAMS && WeightName(g) == WeightName(h)
    ensures g == h
  {
    hide *;
    DecimalReads();
    GramsRoundTrip(Decimal, g);
    GramsRoundTrip(Decimal, h);
  }
}
