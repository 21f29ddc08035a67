/** Amounts as an accountant writes them: Arabic, Persian or Latin digits, grouping marks, a currency behind
    (ParseAmount in backend/internal/catalog/pricesync_file.go). A float64 is a real. */
module Amounts {
  import opened Common
  import OptionModes

  /** The Latin digit a rune stands for. */
  function LatinDigit(c: char): Option<char> {
    if '0' <= c <= '9' then Some(c)
    else if '\U{0660}' <= c <= '\U{0669}' then Some('0' + (c - '\U{0660}'))
    else if '\U{06F0}' <= c <= '\U{06F9}' then Some('0' + (c - '\U{06F0}'))
    else None
  }

  predicate IsDigit(c: char) {
    LatinDigit(c).Some?
  }

  predicate IsPoint(c: char) {
    c == '.' || c == '\U{066B}'
  }

  /** What rune i adds to the text collected before it. */
  function Add(b: string, s: string, i: nat): string
    requires i < |s|
  {
    var c := s[i];
    if IsPoint(c) && (i + 1 >= |s| || !IsDigit(s[i + 1]) || b == "") then b
    else if IsDigit(c) then b + [LatinDigit(c).value]
    else if IsPoint(c) then b + "."
    else if c == '-' && b == "" then "-"
    else b
  }

  /** The text collected from the first n runes. */
  function Collected(s: string, n: nat): string
    requires n <= |s|
  {
    if n == 0 then "" else Add(Collected(s, n - 1), s, n - 1)
  }

  function Points(t: string): nat {
    if t == "" then 0 else (if t[|t| - 1] == '.' then 1 else 0) + Points(t[..|t| - 1])
  }

  predicate Accepted(t: string) {
    t != "" && t != "-" && Points(t) <= 1
  }

  // ---------------------------------------------------------------------------------------
  // Decimal numbers
  // ---------------------------------------------------------------------------------------

  predicate Digits(t: string) {
    forall i :: 0 <= i < |t| ==> '0' <= t[i] <= '9'
  }

  /** Digits, perhaps behind a minus. */
  predicate SignedDigits(t: string) {
    forall i :: 0 <= i < |t| ==> '0' <= t[i] <= '9' || (i == 0 && t[0] == '-')
  }

  /** The point at p, with a sign or digits before it and digits behind it. */
  predicate PointAt(t: string, p: int) {
    1 <= p < |t| - 1 && t[p] == '.' && SignedDigits(t[..p]) && Digits(t[p + 1..])
  }

  /** What strconv.ParseFloat reads without an error, up to the range of a float64. */
  predicate Decimal(t: string) {
    (t != "" && t != "-" && SignedDigits(t)) || exists p :: 0 <= p < |t| && PointAt(t, p)
  }

  function DigitsValue(t: string): real
    requires Digits(t)
  {
    if t == "" then 0.0 else DigitsValue(t[..|t| - 1]) * 10.0 + (t[|t| - 1] - '0') as int as real
  }

  /** The value of digits behind a point. */
  function Fraction(t: string): real
    requires Digits(t)
  {
    if t == "" then 0.0 else ((t[0] - '0') as int as real + Fraction(t[1..])) / 10.0
  }

  function PointIn(t: string): (p: nat)
    ensures p <= |t| && (p < |t| ==> t[p] == '.') && forall i :: 0 <= i < p ==> t[i] != '.'
  {
    if t == "" || t[0] == '.' then 0 else 1 + PointIn(t[1..])
  }

  lemma PointInIs(t: string, p: int)
    requires PointAt(t, p)
    ensures PointIn(t) == p
  {
    assert t[..p][0] == t[0];
    forall i | 0 <= i < p
      ensures t[i] != '.'
    {
      assert t[..p][i] == t[i];
    }
  }

  function Unsigned(t: string): string {
    if t != "" && t[0] == '-' then t[1..] else t
  }

  function DecimalValue(t: string): real
    requires Decimal(t)
  {
    var p := PointIn(t);
    var v := DigitsValue(Unsigned(t[..p])) + Fraction(if p < |t| then t[p + 1..] else "");
    if t[0] == '-' then -v else v
  }

  // ---------------------------------------------------------------------------------------
  // Every accepted text is a decimal number
  // ---------------------------------------------------------------------------------------

  lemma PointsAppend(t: string, c: char)
    ensures Points(t + [c]) == Points(t) + if c == '.' then 1 else 0
  {
    assert (t + [c])[..|t|] == t;
  }

  /** A point has been written: digits before and behind it, or a digit is next. */
  ghost predicate OnePoint(s: string, n: nat, b: string, p: int)
    requires n <= |s|
  {
    && 1 <= p < |b| && b[p] == '.' && SignedDigits(b[..p]) && Digits(b[p + 1..])
    && (p == |b| - 1 ==> n < |s| && IsDigit(s[n]))
  }

  ghost predicate Shape(s: string, n: nat, b: string)
    requires n <= |s|
  {
    || Points(b) > 1
    || (Points(b) == 0 && SignedDigits(b))
    || (Points(b) == 1 && exists p :: OnePoint(s, n, b, p))
  }

  lemma LatinIsDigit(c: char)
    requires IsDigit(c)
    ensures '0' <= LatinDigit(c).value <= '9'
  {
  }

  lemma AddsDigit(s: string, n: nat, b: string)
    requires n < |s| && IsDigit(s[n]) && Shape(s, n, b)
    ensures Shape(s, n + 1, b + [LatinDigit(s[n]).value])
  {
    hide LatinDigit, Points;
    LatinIsDigit(s[n]);
    var c := LatinDigit(s[n]).value;
    PointsAppend(b, c);
    if Points(b) == 1 {
      var p :| OnePoint(s, n, b, p);
      assert (b + [c])[..p] == b[..p] && (b + [c])[p + 1..] == b[p + 1..] + [c];
      assert OnePoint(s, n + 1, b + [c], p);
    }
  }

  lemma AddsPoint(s: string, n: nat, b: string)
    requires n + 1 < |s| && IsDigit(s[n + 1]) && b != "" && Shape(s, n, b)
    ensures Shape(s, n + 1, b + ".")
  {
    hide LatinDigit, Points;
    PointsAppend(b, '.');
    if Points(b) == 0 {
      assert (b + ".")[..|b|] == b && (b + ".")[|b| + 1..] == "";
      assert OnePoint(s, n + 1, b + ".", |b|);
    }
  }

  /** Nothing is written, and no digit was due. */
  lemma AddsNothing(s: string, n: nat, b: string)
    requires n < |s| && !IsDigit(s[n]) && Shape(s, n, b)
    ensures Shape(s, n + 1, b)
  {
    hide Points;
    if Points(b) == 1 {
      var p :| OnePoint(s, n, b, p);
      assert OnePoint(s, n + 1, b, p);
    }
  }

  lemma {:induction false} CollectedHasShape(s: string, n: nat)
    requires n <= |s|
    ensures Shape(s, n, Collected(s, n))
  {
    hide Shape, LatinDigit;
    if n == 0 {
      assert Shape(s, 0, "") by {
        EmptyShape(s);
      }
    } else {
      var b := Collected(s, n - 1);
      CollectedHasShape(s, n - 1);
      if IsDigit(s[n - 1]) {
        PointIsNoDigit(s[n - 1]);
        AddsDigit(s, n - 1, b);
      } else if IsPoint(s[n - 1]) && n < |s| && IsDigit(s[n]) && b != "" {
        AddsPoint(s, n - 1, b);
      } else if s[n - 1] == '-' && b == "" {
        MinusShape(s, n);
      } else {
        AddsNothing(s, n - 1, b);
      }
    }
  }

  lemma PointIsNoDigit(c: char)
    requires IsDigit(c)
    ensures !IsPoint(c)
  {
  }

  lemma EmptyShape(s: string)
    ensures Shape(s, 0, "")
  {
  }

  lemma MinusShape(s: string, n: nat)
    requires n <= |s|
    ensures Shape(s, n, "-")
  {
    assert "-"[..0] == "";
  }

  /** Every text that passes the checks is a decimal number. */
  lemma AcceptedIsDecimal(s: string)
    requires Accepted(Collected(s, |s|))
    ensures Decimal(Collected(s, |s|))
  {
    hide Points, Collected;
    var t := Collected(s, |s|);
    CollectedHasShape(s, |s|);
    if Points(t) == 1 {
      var p :| OnePoint(s, |s|, t, p);
      assert PointAt(t, p);
    }
  }

  /** The amount a text says. */
  function Amount(s: string): Option<real> {
    var t := Collected(s, |s|);
    if Accepted(t) then
      AcceptedIsDecimal(s);
      Some(DecimalValue(t))
    else None
  }

  method CountPoints(t: string) returns (n: nat)
    ensures n == Points(t)
  {
    n := 0;
    for i := 0 to |t|
      invariant n == Points(t[..i])
    {
      PointsAppend(t[..i], t[i]);
      assert t[..i + 1] == t[..i] + [t[i]];
      if t[i] == '.' {
        n := n + 1;
      }
    }
    assert t[..|t|] == t;
  }

  /** ParseAmount: rune by rune into a builder. */
  method ParseAmount(s: string) returns (r: Option<real>)
    ensures r == Amount(s)
  {
    hide DecimalValue, Decimal, LatinDigit, Points;
    var b := "";
    for i := 0 to |s|
      invariant b == Collected(s, i)
    {
      var c := s[i];
      if IsPoint(c) && (i + 1 >= |s| || !IsDigit(s[i + 1]) || b == "") {
        continue;
      }
      if IsDigit(c) {
        b := b + [LatinDigit(c).value];
      } else if IsPoint(c) {
        b := b + ".";
      } else if c == '-' && b == "" {
        b := b + "-";
      }
    }
    var points := CountPoints(b);
    if b == "" || b == "-" || points > 1 {
      return None;
    }
    AcceptedIsDecimal(s);
    return Some(DecimalValue(b));
  }

  // ---------------------------------------------------------------------------------------
  // Scripts and marks
  // ---------------------------------------------------------------------------------------

  /** The same digit in any script, either point, or the same rune. */
  predicate Alike(c: char, d: char) {
    if IsDigit(c) then LatinDigit(c) == LatinDigit(d) else if IsPoint(c) then IsPoint(d) else c == d
  }

  lemma {:induction false} SameCollected(s: string, t: string, n: nat)
    requires |s| == |t| && (forall i :: 0 <= i < |s| ==> Alike(s[i], t[i])) && n <= |s|
    ensures Collected(s, n) == Collected(t, n)
  {
    hide LatinDigit;
    if n > 0 {
      SameCollected(s, t, n - 1);
      assert Alike(s[n - 1], t[n - 1]);
      AlikeKinds(s[n - 1], t[n - 1]);
      if n < |s| {
        assert Alike(s[n], t[n]);
        AlikeKinds(s[n], t[n]);
      }
    }
  }

  lemma AlikeKinds(c: char, d: char)
    requires Alike(c, d)
    ensures IsDigit(c) == IsDigit(d) && IsPoint(c) == IsPoint(d) && (c == '-' <==> d == '-')
    ensures LatinDigit(c) == LatinDigit(d)
  {
  }

  /** Writing the digits in another script, or the other decimal mark, never changes the amount. */
  lemma ScriptsReadAlike(s: string, t: string)
    requires |s| == |t| && forall i :: 0 <= i < |s| ==> Alike(s[i], t[i])
    ensures Amount(s) == Amount(t)
  {
    hide Alike, Collected, DecimalValue;
    SameCollected(s, t, |s|);
  }

  // ---------------------------------------------------------------------------------------
  // Printed numbers are read back
  // ---------------------------------------------------------------------------------------

  /** The digits of a text, in Latin. */
  function OnlyDigits(w: string): (t: string)
    ensures Digits(t)
  {
    if w == "" then ""
    else
      var c := w[|w| - 1];
      if IsDigit(c) then OnlyDigits(w[..|w| - 1]) + [LatinDigit(c).value] else OnlyDigits(w[..|w| - 1])
  }

  /** A digit, and behind it digits and grouping marks: no point. */
  predicate Grouped(w: string) {
    w != "" && IsDigit(w[0]) && forall i :: 0 <= i < |w| ==> !IsPoint(w[i])
  }

  /** Without a digit: a label or a sign before a number, or a unit behind it. */
  predicate NoDigits(u: string) {
    forall i :: 0 <= i < |u| ==> !IsDigit(u[i])
  }

  /** Text before the first digit, with no point right before the digit. */
  predicate Label(x: string) {
    NoDigits(x) && (x == "" || !IsPoint(x[|x| - 1]))
  }

  function Sign(x: string): string {
    if '-' in x then "-" else ""
  }

  function Signed(x: string, v: real): real {
    if '-' in x then -v else v
  }

  /** Before the first digit only a minus is collected. */
  lemma {:induction false} CollectsSign(s: string, n: nat)
    requires n <= |s| && NoDigits(s[..n]) && (0 < n < |s| && IsPoint(s[n - 1]) ==> !IsDigit(s[n]))
    ensures Collected(s, n) == Sign(s[..n])
  {
    hide LatinDigit, IsDigit;
    if n > 0 {
      var x := s[..n];
      assert s[..n - 1] == x[..n - 1] && x == x[..n - 1] + [s[n - 1]];
      assert s[n - 1] == x[n - 1];
      CollectsSign(s, n - 1);
    }
  }

  /** Through grouped digits the digits are collected. */
  lemma {:induction false} CollectsGroup(s: string, a: nat, n: nat)
    requires a <= n <= |s| && (a < n ==> IsDigit(s[a])) && forall i :: a <= i < n ==> !IsPoint(s[i])
    ensures Collected(s, n) == Collected(s, a) + OnlyDigits(s[a..n])
  {
    hide LatinDigit;
    if a < n {
      CollectsGroup(s, a, n - 1);
      var w := s[a..n - 1];
      assert s[a..n][..n - 1 - a] == w;
      var b, d := Collected(s, a), OnlyDigits(w);
      if IsDigit(s[n - 1]) {
        assert (b + d) + [LatinDigit(s[n - 1]).value] == b + (d + [LatinDigit(s[n - 1]).value]);
      } else {
        FirstDigitIsKept(w);
      }
    }
  }

  /** Behind the digits nothing more is collected. */
  lemma {:induction false} CollectsUnit(s: string, a: nat, n: nat)
    requires a <= n <= |s| && Collected(s, a) != "" && forall i :: a <= i < |s| ==> !IsDigit(s[i])
    ensures Collected(s, n) == Collected(s, a)
  {
    hide LatinDigit;
    if a < n {
      CollectsUnit(s, a, n - 1);
    }
  }

  lemma FirstDigitIsKept(w: string)
    requires w != "" && IsDigit(w[0])
    ensures OnlyDigits(w) != ""
  {
    if |w| > 1 {
      FirstDigitIsKept(w[..|w| - 1]);
    }
  }

  /** A label, digits and a unit. */
  lemma CollectsWhole(x: string, w: string, u: string)
    requires Label(x) && Grouped(w) && NoDigits(u)
    ensures var s := x + w + u;
            Collected(s, |s|) == Sign(x) + OnlyDigits(w)
  {
    hide Collected, OnlyDigits, LatinDigit, Sign;
    var s := x + w + u;
    var a := |x|;
    assert s[..a] == x && s[a..a + |w|] == w && s[a] == w[0];
    CollectsSign(s, a);
    assert forall i :: a <= i < a + |w| ==> s[i] == w[i - a];
    CollectsGroup(s, a, a + |w|);
    FirstDigitIsKept(w);
    assert forall i :: a + |w| <= i < |s| ==> s[i] == u[i - a - |w|];
    CollectsUnit(s, a + |w|, |s|);
  }

  /** A text, a mark that is kept or passed over, the digits behind it and a unit. */
  lemma CollectsMark(y: string, point: char, f: string, u: string)
    requires IsPoint(point) && Grouped(f) && NoDigits(u)
    ensures var s := y + [point] + f + u;
            Collected(s, |s|) == (if Collected(s, |y|) == "" then "" else Collected(s, |y|) + ".") + OnlyDigits(f)
  {
    hide Collected, OnlyDigits, LatinDigit;
    var s := y + [point] + f + u;
    var a, b := |y|, |y| + 1 + |f|;
    assert s[a] == point && s[a + 1] == f[0] && s[a + 1..b] == f;
    PointIsCollected(s, a);
    assert forall i :: a + 1 <= i < b ==> s[i] == f[i - a - 1];
    CollectsGroup(s, a + 1, b);
    FirstDigitIsKept(f);
    assert forall i :: b <= i < |s| ==> s[i] == u[i - b];
    CollectsUnit(s, b, |s|);
  }

  lemma PointIsCollected(s: string, a: nat)
    requires a + 1 < |s| && IsPoint(s[a]) && IsDigit(s[a + 1])
    ensures Collected(s, a + 1) == if Collected(s, a) == "" then "" else Collected(s, a) + "."
  {
  }

  lemma {:induction false} PointsOfDigits(t: string)
    requires Digits(t)
    ensures Points(t) == 0
  {
    if t != "" {
      PointsOfDigits(t[..|t| - 1]);
    }
  }

  lemma {:induction false} PointsJoin(a: string, b: string)
    ensures Points(a + b) == Points(a) + Points(b)
  {
    if b == "" {
      assert a + b == a;
    } else {
      var n := |b| - 1;
      PointsJoin(a, b[..n]);
      assert (a + b)[..|a| + n] == a + b[..n];
    }
  }

  lemma WholeValue(x: string, d: string)
    requires Digits(d) && d != ""
    ensures var t := Sign(x) + d;
            Accepted(t) && Decimal(t) && DecimalValue(t) == Signed(x, DigitsValue(d))
  {
    hide DigitsValue, Points;
    var t := Sign(x) + d;
    PointsOfDigits(d);
    PointsOfSign(x);
    PointsJoin(Sign(x), d);
    assert t[..|t|] == t;
    if '-' in x {
      assert t[1..] == d;
    } else {
      assert Unsigned(t) == t == d;
    }
  }

  lemma PointsOfSign(x: string)
    ensures Points(Sign(x)) == 0
  {
    assert Points("-"[..0]) == 0;
  }

  /** A sign and digits, of which one may be missing, before the point. */
  lemma FractionValue(x: string, d: string, f: string)
    requires Digits(d) && Digits(f) && f != "" && Sign(x) + d != ""
    ensures var t := Sign(x) + d + "." + f;
            Accepted(t) && Decimal(t) && DecimalValue(t) == Signed(x, DigitsValue(d) + Fraction(f))
  {
    hide DigitsValue, Fraction, Points;
    var h := Sign(x) + d;
    var t := h + "." + f;
    PointsOfDigits(d);
    PointsOfDigits(f);
    PointsOfSign(x);
    PointsJoin(Sign(x), d);
    PointsAppend(h, '.');
    PointsJoin(h + ".", f);
    assert t[..|h|] == h && t[|h| + 1..] == f && t[0] == h[0];
    assert PointAt(t, |h|);
    PointInIs(t, |h|);
    if '-' in x {
      assert h[1..] == d;
    } else {
      assert h == d;
    }
  }

  lemma AmountOf(s: string, t: string)
    requires Collected(s, |s|) == t && Accepted(t) && Decimal(t)
    ensures Amount(s) == Some(DecimalValue(t))
  {
    hide Collected, Accepted, Decimal, DecimalValue;
  }

  /** A whole number: its digits, in any script and in groups, are read as the number, with a label before it, a
      unit behind it, and the sign of a minus anywhere before it. */
  lemma PrintedWhole(x: string, w: string, u: string)
    requires Label(x) && Grouped(w) && NoDigits(u)
    ensures Amount(x + w + u) == Some(Signed(x, DigitsValue(OnlyDigits(w))))
  {
    hide *;
    CollectsWhole(x, w, u);
    FirstDigits(w);
    WholeValue(x, OnlyDigits(w));
    AmountOf(x + w + u, Sign(x) + OnlyDigits(w));
  }

  lemma FirstDigits(w: string)
    requires Grouped(w)
    ensures OnlyDigits(w) != ""
  {
    FirstDigitIsKept(w);
  }

  /** A number with a fraction: either mark, digits in any script and in groups before and behind it. */
  lemma PrintedFraction(x: string, w: string, point: char, f: string, u: string)
    requires Label(x) && Grouped(w) && IsPoint(point) && Grouped(f) && NoDigits(u)
    ensures Amount(x + w + [point] + f + u) == Some(Signed(x, DigitsValue(OnlyDigits(w)) + Fraction(OnlyDigits(f))))
  {
    hide *;
    var d, g := OnlyDigits(w), OnlyDigits(f);
    CollectsBefore(x, w, point, f, u);
    FirstDigits(w);
    FirstDigits(f);
    CollectsMark(x + w, point, f, u);
    FractionValue(x, d, g);
    AmountOf(x + w + [point] + f + u, Sign(x) + d + "." + g);
  }

  lemma CollectsBefore(x: string, w: string, point: char, f: string, u: string)
    requires Label(x) && Grouped(w) && IsPoint(point) && Grouped(f)
    ensures Collected(x + w + [point] + f + u, |x + w|) == Sign(x) + OnlyDigits(w)
  {
    hide Collected, OnlyDigits, LatinDigit, Sign;
    var s := x + w + [point] + f + u;
    var a := |x|;
    assert s[..a] == x && s[a..a + |w|] == w && s[a] == w[0];
    CollectsSign(s, a);
    assert forall i :: a <= i < a + |w| ==> s[i] == w[i - a];
    CollectsGroup(s, a, a + |w|);
  }

  /** A mark without a digit before it: ".5" is read as five, "-.5" as minus a half. */
  lemma LeadingPoint(x: string, point: char, f: string, u: string)
    requires NoDigits(x) && IsPoint(point) && Grouped(f) && NoDigits(u)
    ensures Amount(x + [point] + f + u) ==
            Some(if '-' in x then -Fraction(OnlyDigits(f)) else DigitsValue(OnlyDigits(f)))
  {
    hide *;
    var s, g := x + [point] + f + u, OnlyDigits(f);
    FirstDigits(f);
    CollectsMark(x, point, f, u);
    SignBefore(x, point, f, u);
    SignIs(x, g);
    if '-' in x {
      NoDigitsValue();
      FractionValue(x, "", g);
      AmountOf(s, Sign(x) + "" + "." + g);
    } else {
      WholeValue(x, g);
      AmountOf(s, g);
    }
  }

  lemma SignBefore(x: string, point: char, f: string, u: string)
    requires NoDigits(x) && IsPoint(point)
    ensures Collected(x + [point] + f + u, |x|) == Sign(x)
  {
    hide Collected, Sign;
    var s := x + [point] + f + u;
    assert s[..|x|] == x && s[|x|] == point;
    CollectsSign(s, |x|);
  }

  lemma SignIs(x: string, g: string)
    ensures '-' in x ==> Sign(x) == "-" && Sign(x) + "" + "." + g == Sign(x) + "." + g
    ensures '-' !in x ==> Sign(x) == "" && Sign(x) + g == g == "" + g
    ensures forall v :: Signed(x, v) == if '-' in x then -v else v
  {
  }

  lemma NoDigitsValue()
    ensures Digits("") && DigitsValue("") == 0.0
  {
  }

  // ----- exactly when the mark is kept -----

  predicate Zeros(t: string) {
    forall i :: 0 <= i < |t| ==> t[i] == '0'
  }

  lemma {:induction false} WholeIsLarge(t: string)
    requires Digits(t)
    ensures DigitsValue(t) >= 0.0
    ensures if Zeros(t) then DigitsValue(t) == 0.0 else DigitsValue(t) >= 1.0
  {
    if t != "" {
      WholeIsLarge(t[..|t| - 1]);
    }
  }

  lemma {:induction false} FractionIsSmall(t: string)
    requires Digits(t)
    ensures 0.0 <= Fraction(t) < 1.0 && (Zeros(t) ==> Fraction(t) == 0.0)
  {
    if t != "" {
      FractionIsSmall(t[1..]);
    }
  }

  /** A number is read back with its fraction exactly when a digit or a minus stands before the mark, or the
      fraction is zero. */
  lemma ReadBackIff(x: string, w: string, point: char, f: string, u: string)
    requires (if w == "" then NoDigits(x) else Label(x) && Grouped(w)) && IsPoint(point) && Grouped(f) && NoDigits(u)
    ensures Amount(x + w + [point] + f + u) == Some(Signed(x, DigitsValue(OnlyDigits(w)) + Fraction(OnlyDigits(f))))
            <==> w != "" || '-' in x || Zeros(OnlyDigits(f))
  {
    hide *;
    if w == "" {
      assert x + w == x;
      LeadingPoint(x, point, f, u);
      NothingBefore();
      SignIs(x, "");
      WholeIsLarge(OnlyDigits(f));
      FractionIsSmall(OnlyDigits(f));
    } else {
      PrintedFraction(x, w, point, f, u);
    }
  }

  lemma NothingBefore()
    ensures OnlyDigits("") == "" && DigitsValue("") == 0.0
  {
  }

  // ----- what the runes and digits are worth -----

  /** A digit has three forms, and the mark two. */
  lemma RunesMean(c: char, n: nat)
    requires n < 10
    ensures LatinDigit(c) == Some('0' + n as char) <==>
            c == '0' + n as char || c == '\U{0660}' + n as char || c == '\U{06F0}' + n as char
    ensures IsPoint(c) <==> c == '.' || c == '\U{066B}'
  {
  }

  function Power10(n: nat): (p: real)
    ensures p >= 1.0
  {
    if n == 0 then 1.0 else 10.0 * Power10(n - 1)
  }

  lemma ValueAppends(d: string, c: char)
    requires Digits(d) && '0' <= c <= '9'
    ensures Digits(d + [c]) && DigitsValue(d + [c]) == DigitsValue(d) * 10.0 + (c - '0') as int as real
  {
    assert (d + [c])[..|d|] == d;
  }

  lemma FractionNext(f: string)
    requires Digits(f) && f != ""
    ensures Fraction(f) == ((f[0] - '0') as int as real + Fraction(f[1..])) / 10.0
    ensures Power10(|f|) == 10.0 * Power10(|f| - 1)
  {
  }

  /** A fraction behind digits is the number all the digits make, moved by the digits of the fraction. */
  lemma {:induction false} FractionIsMoved(d: string, f: string, v: real, p: real)
    requires Digits(d) && Digits(f) && v == DigitsValue(d) + Fraction(f) && p == Power10(|f|)
    ensures v * p == DigitsValue(d + f)
    decreases |f|
  {
    hide DigitsValue, Fraction, Power10;
    if f == "" {
      NoFraction();
      assert d + f == d;
    } else {
      FractionNext(f);
      ValueAppends(d, f[0]);
      var e := d + [f[0]];
      assert d + f == e + f[1..];
      FractionIsMoved(e, f[1..], v * 10.0, p / 10.0);
      Tenfold(v, p);
    }
  }

  lemma NoFraction()
    ensures Fraction("") == 0.0 && Power10(0) == 1.0
  {
  }

  lemma Tenfold(v: real, p: real)
    ensures (v * 10.0) * (p / 10.0) == v * p
  {
  }

  lemma Quotient(y: real, p: real, v: real)
    requires p >= 1.0 && y * p == v
    ensures y == v / p
  {
  }

  lemma {:induction false} DigitsAreWorth(t: string)
    requires Digits(t)
    ensures DigitsValue(t) == OptionModes.ValueOf(t) as real
  {
    if t != "" {
      DigitsAreWorth(t[..|t| - 1]);
    }
  }

  lemma {:induction false} LatinDigits(f: string)
    requires Digits(f)
    ensures OnlyDigits(f) == f && forall i :: 0 <= i < |f| ==> IsDigit(f[i]) && !IsPoint(f[i])
  {
    if f != "" {
      LatinDigits(f[..|f| - 1]);
      assert f == f[..|f| - 1] + [f[|f| - 1]];
    }
  }

  lemma ItoaIsWorth(n: nat)
    ensures var t := OptionModes.Itoa(n);
            && Digits(t) && OnlyDigits(t) == t && Grouped(t) && DigitsValue(t) == n as real
  {
    hide OptionModes.Itoa, DigitsValue, OnlyDigits, LatinDigit;
    var t := OptionModes.Itoa(n);
    LatinDigits(t);
    DigitsAreWorth(t);
    OptionModes.ValueOfItoa(n);
  }

  /** A number that was printed is read as itself, with a label and a minus before it and a unit behind it. */
  lemma ItoaIsRead(x: string, n: nat, u: string)
    requires Label(x) && NoDigits(u)
    ensures Amount(x + OptionModes.Itoa(n) + u) == Some(if '-' in x then -(n as real) else n as real)
  {
    hide Amount, DigitsValue, OnlyDigits, Label, Grouped, NoDigits, OptionModes.Itoa;
    ItoaIsWorth(n);
    PrintedWhole(x, OptionModes.Itoa(n), u);
  }

  /** Digits, a mark and more digits are read as the number all the digits make over the power of ten of the digits
      behind the mark. */
  lemma FractionIsRead(x: string, n: nat, point: char, f: string, u: string)
    requires Label(x) && IsPoint(point) && Digits(f) && f != "" && NoDigits(u)
    ensures Digits(OptionModes.Itoa(n) + f)
    ensures var v := DigitsValue(OptionModes.Itoa(n) + f) / Power10(|f|);
            Amount(x + OptionModes.Itoa(n) + [point] + f + u) == Some(if '-' in x then -v else v)
  {
    hide Amount, DigitsValue, OnlyDigits, Fraction, Label, NoDigits, OptionModes.Itoa, Power10;
    ItoaIsWorth(n);
    LatinDigits(f);
    PrintedFraction(x, OptionModes.Itoa(n), point, f, u);
    var v, p := n as real + Fraction(f), Power10(|f|);
    FractionIsMoved(OptionModes.Itoa(n), f, v, p);
    Quotient(v, p, DigitsValue(OptionModes.Itoa(n) + f));
  }
}
