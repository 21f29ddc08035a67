/** Which weight a name says, and which digits an amount is written in, by the texts themselves
    (backend/internal/catalog/option_modes.go and pricesync_file.go). */
module WeightNames {
  import opened Common
  import opened Money
  import opened Text
  import opened TextMeaning
  import opened OptionModes
  import Amounts

  const DIGITS := "٠١٢٣٤٥٦٧٨٩٫"
  const LATIN_DIGITS := "0123456789."

  ghost predicate IsDigitTable(from: string, to: string) {
    && |from| == |to| == 11
    && (forall i: int :: 0 <= i < 10 ==> from[i] == '\U{0660}' + i as char && to[i] == '0' + i as char)
    && from[10] == '\U{066B}' && to[10] == '.'
  }

  lemma DigitTable()
    ensures IsDigitTable(DIGITS, LATIN_DIGITS)
  {
  }

  lemma DigitTranslated(from: string, to: string, c: char)
    requires IsDigitTable(from, to)
    ensures LatinDigit(c) == if c in from then to[PlaceOf(from, c)] else c
  {
    hide PlaceOf;
    if '\U{0660}' <= c <= '\U{0669}' {
      PlaceIs(from, c, (c - '\U{0660}') as int);
    } else if c == '\U{066B}' {
      PlaceIs(from, c, 10);
    }
  }

  lemma DigitsTranslated(s: string)
    ensures LatinDigits(s) == Translate(s, DIGITS, LATIN_DIGITS)
  {
    hide LatinDigit, IsDigitTable;
    DigitTable();
    forall i | 0 <= i < |s|
      ensures LatinDigit(s[i]) == if s[i] in DIGITS then LATIN_DIGITS[PlaceOf(DIGITS, s[i])] else s[i]
    {
      DigitTranslated(DIGITS, LATIN_DIGITS, s[i]);
    }
  }

  predicate EndsWith(s: string, unit: string) {
    |unit| <= |s| && s[|s| - |unit|..] == unit
  }

  /** What is before the unit is a number, and so many of it is a weight up to a ton. */
  predicate SaysAmount(parse: string -> Option<real>, s: string, unit: string, factor: real, n: int)
    requires EndsWith(s, unit)
  {
    var v := parse(TrimSpace(s[..|s| - |unit|]));
    if v.Some? && v.value > 0.0 && v.value * factor <= 1_000_000.0 then Nearest(n, v.value * factor) else n == 0
  }

  /** The weight a trimmed name with Latin digits says; zero when it says none. */
  predicate Says(parse: string -> Option<real>, s: string, n: int) {
    if s == "ربع كيلو" then n == 250
    else if s == "نص كيلو" || s == "نصف كيلو" then n == 500
    else if s == "كيلو" || s == "كيلو غرام" || s == "كغ" then n == 1000
    else if EndsWith(s, "كيلو") then SaysAmount(parse, s, "كيلو", 1000.0, n)
    else if EndsWith(s, "كغ") then SaysAmount(parse, s, "كغ", 1000.0, n)
    else if EndsWith(s, "غرام") then SaysAmount(parse, s, "غرام", 1.0, n)
    else if EndsWith(s, "غ") then SaysAmount(parse, s, "غ", 1.0, n)
    else n == 0
  }

  lemma MeasureMeans(v: Option<real>, factor: real)
    ensures var n := Measure(v, factor);
            if v.Some? && v.value > 0.0 && v.value * factor <= 1_000_000.0 then
              factor > 0.0 ==> Nearest(n, v.value * factor)
            else n == 0
  {
    if v.Some? && v.value > 0.0 && factor > 0.0 {
      Positive(v.value, factor, v.value * factor);
    }
  }

  lemma Positive(a: real, b: real, p: real)
    requires a > 0.0 && b > 0.0 && p == a * b
    ensures p > 0.0
  {
  }

  lemma UnitsApart()
    ensures KILO != KG && KILO != GRAM && KILO != G && KG != GRAM && KG != G && GRAM != G
    ensures KILO != "" && KG != "" && GRAM != "" && G != ""
  {
    assert |KG| == 2 && |G| == 1 && |KILO| == 4 && |GRAM| == 4;
    assert KILO[0] != GRAM[0];
  }

  lemma GramsOfTrimmed(parse: string -> Option<real>, s: string)
    ensures var unit := UnitOf(s);
            var n := if Named(s) != 0 then Named(s) else if unit == "" then 0
                     else Measure(parse(TrimSpace(s[..|s| - |unit|])), Factor(unit));
            Says(parse, s, n)
  {
    hide TrimSpace, Measure, Nearest;
    UnitsApart();
    var unit := UnitOf(s);
    if Named(s) == 0 && unit != "" {
      MeasureMeans(parse(TrimSpace(s[..|s| - |unit|])), Factor(unit));
    }
  }

  /** The weight that is read is the one the name says, in Arabic or Latin digits. */
  lemma GramsMean(parse: string -> Option<real>, name: string)
    ensures Says(parse, TrimSpace(Translate(name, DIGITS, LATIN_DIGITS)), GramsFromName(parse, name))
  {
    hide TrimSpace, Measure, Says, UnitOf, Named, Factor, Translate, LatinDigits;
    DigitsTranslated(name);
    GramsOfTrimmed(parse, TrimSpace(LatinDigits(name)));
  }

  /** The digits of amounts: Latin, Arabic and Persian, and no others. */
  lemma AmountDigits(from: string, to: string, c: char)
    requires IsTable(from, to)
    ensures Amounts.LatinDigit(c) ==
              if '0' <= c <= '9' then Some(c)
              else if c in from[..20] then Some(to[PlaceOf(from, c)]) else None
  {
    hide PlaceOf;
    if '\U{0660}' <= c <= '\U{0669}' {
      PlaceIs(from, c, (c - '\U{0660}') as int);
      assert from[..20][(c - '\U{0660}') as int] == c;
    } else if '\U{06F0}' <= c <= '\U{06F9}' {
      PlaceIs(from, c, 10 + (c - '\U{06F0}') as int);
      assert from[..20][10 + (c - '\U{06F0}') as int] == c;
    }
  }

  /** They are the digits that links are translated from. */
  lemma AmountDigitsAreLinks(c: char)
    ensures Amounts.LatinDigit(c) ==
              if '0' <= c <= '9' then Some(c)
              else if c in FOREIGN[..20] then Some(LATIN[PlaceOf(FOREIGN, c)]) else None
  {
    hide PlaceOf, IsTable, Amounts.LatinDigit;
    ListsAre();
    AmountDigits(FOREIGN, LATIN, c);
  }
}
