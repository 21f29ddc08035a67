/** How names and links are read, said another way: links as the database translates them, item names by the shape
    of what is taken off, the comparison form by its letters
    (backend/internal/catalog/item_link.go, pricesync.go and pricesync_create.go). */
module TextMeaning {
  import opened Common
  import opened Text

  // ----- links -----

  /** What the query for a taken code translates: Arabic and Persian digits, and the two Arabic marks. */
  const FOREIGN := "٠١٢٣٤٥٦٧٨٩۰۱۲۳۴۵۶۷۸۹٬٫"
  const LATIN := "01234567890123456789,."

  function PlaceOf(s: string, c: char): (i: nat)
    ensures i <= |s| && (i < |s| ==> s[i] == c) && forall j :: 0 <= j < i ==> s[j] != c
  {
    if s == "" || s[0] == c then 0 else 1 + PlaceOf(s[1..], c)
  }

  /** SQL's translate: each rune of the first list becomes the one at its place in the second. */
  function Translate(s: string, from: string, to: string): (t: string)
    requires |from| == |to|
    ensures |t| == |s|
  {
    seq(|s|, i requires 0 <= i < |s| => if s[i] in from then to[PlaceOf(from, s[i])] else s[i])
  }

  lemma ListsAre()
    ensures IsTable(FOREIGN, LATIN)
  {
  }

  lemma PlaceIs(s: string, c: char, i: nat)
    requires i < |s| && s[i] == c && forall j :: 0 <= j < i ==> s[j] != c
    ensures c in s && PlaceOf(s, c) == i
  {
  }

  /** The table, by code points. */
  ghost predicate IsTable(from: string, to: string) {
    && |from| == 22 && |to| == 22
    && (forall i: int :: 0 <= i < 10 ==> from[i] == '\U{0660}' + i as char && to[i] == '0' + i as char)
    && (forall i: int :: 10 <= i < 20 ==> from[i] == '\U{06F0}' + (i - 10) as char && to[i] == '0' + (i - 10) as char)
    && from[20] == '\U{066C}' && to[20] == ',' && from[21] == '\U{066B}' && to[21] == '.'
  }

  lemma RuneTranslated(from: string, to: string, c: char)
    requires IsTable(from, to)
    ensures LinkChar(c) == if c in from then to[PlaceOf(from, c)] else c
  {
    hide PlaceOf;
    if '\U{0660}' <= c <= '\U{0669}' {
      PlaceIs(from, c, (c - '\U{0660}') as int);
    } else if '\U{06F0}' <= c <= '\U{06F9}' {
      PlaceIs(from, c, 10 + (c - '\U{06F0}') as int);
    } else if c == '\U{066C}' {
      PlaceIs(from, c, 20);
    } else if c == '\U{066B}' {
      PlaceIs(from, c, 21);
    }
  }

  /** The service and the database read a code alike. */
  lemma TranslatedAlike(s: string)
    ensures LinkChars(s) == Translate(s, FOREIGN, LATIN)
  {
    hide LinkChar, IsTable;
    ListsAre();
    forall i | 0 <= i < |s|
      ensures LinkChar(s[i]) == if s[i] in FOREIGN then LATIN[PlaceOf(FOREIGN, s[i])] else s[i]
    {
      RuneTranslated(FOREIGN, LATIN, s[i]);
    }
  }

  predicate AllSpace(s: string) {
    forall i :: 0 <= i < |s| ==> IsSpace(s[i])
  }

  /** t is s without the white space at its ends. */
  ghost predicate IsTrimmedOf(s: string, t: string) {
    Trimmed(t) && exists a, b :: 0 <= a <= b <= |s| && t == s[a..b] && AllSpace(s[..a]) && AllSpace(s[b..])
  }

  lemma {:induction false} LeftTrimmed(s: string)
    ensures AllSpace(s[..|s| - |TrimLeft(s)|])
  {
    if s != "" && IsSpace(s[0]) {
      LeftTrimmed(s[1..]);
      var n := |s| - |TrimLeft(s)|;
      assert forall i :: 1 <= i < n ==> s[..n][i] == s[1..][..n - 1][i - 1];
    }
  }

  lemma {:induction false} RightTrimmed(s: string)
    ensures AllSpace(s[|TrimRight(s)|..])
  {
    if s != "" && IsSpace(s[|s| - 1]) {
      var n := |s| - 1;
      RightTrimmed(s[..n]);
      var k := |TrimRight(s)|;
      assert forall i :: 0 <= i < n - k ==> s[k..][i] == s[..n][k..][i];
    }
  }

  lemma TrimMeans(s: string)
    ensures IsTrimmedOf(s, TrimSpace(s))
  {
    TrimSpaceTrims(s);
    LeftTrimmed(s);
    var l := TrimLeft(s);
    RightTrimmed(l);
    var a := |s| - |l|;
    var b := a + |TrimRight(l)|;
    assert l == s[a..];
    assert TrimRight(l) == s[a..b] && l[|TrimRight(l)|..] == s[b..];
  }

  /** A link is what is sent without blanks around it, translated as the database does. */
  lemma LinkMeans(s: string) returns (mid: string)
    ensures IsTrimmedOf(s, mid) && LinkText(s) == Translate(mid, FOREIGN, LATIN)
  {
    hide TrimSpace, LinkChars, Translate, IsTrimmedOf;
    mid := TrimSpace(s);
    TrimMeans(s);
    TranslatedAlike(mid);
  }

  // ----- item names -----

  /** The longest run of such runes from one place on. */
  predicate RunOf(q: char -> bool, s: string, from: nat, to: nat) {
    from <= to <= |s| && (forall i :: from <= i < to ==> q(s[i])) && (to < |s| ==> !q(s[to]))
  }

  /** A number up to d, blanks up to the dash at p, and blanks behind it up to `end`. */
  predicate NumberParts(u: Unicode, s: string, d: nat, p: nat, end: nat) {
    && d > 0 && RunOf(u.digit, s, 0, d) && RunOf(IsRegexSpace, s, d, p)
    && p < |s| && s[p] == '-' && RunOf(IsRegexSpace, s, p + 1, end)
  }

  /** Up to `end`, s is a number, blanks, a dash and blanks. */
  ghost predicate NumberAndDash(u: Unicode, s: string, end: nat) {
    exists d, p :: NumberParts(u, s, d, p, end)
  }

  lemma OneRun(q: char -> bool, s: string, from: nat, x: nat, y: nat)
    requires RunOf(q, s, from, x) && RunOf(q, s, from, y)
    ensures x == y
  {
  }

  lemma CountIsRun(q: char -> bool, s: string, from: nat)
    requires from <= |s|
    ensures RunOf(q, s, from, from + CountWhile(s[from..], q))
    ensures forall to: nat :: RunOf(q, s, from, to) ==> to == from + CountWhile(s[from..], q)
  {
    var n := CountWhile(s[from..], q);
    assert forall i :: from <= i < |s| ==> s[i] == s[from..][i - from];
    forall to: nat | RunOf(q, s, from, to)
      ensures to == from + n
    {
      OneRun(q, s, from, to, from + n);
    }
  }

  lemma PrefixMeans(u: Unicode, s: string)
    ensures JunkPrefix(u, s).Some? ==> NumberAndDash(u, s, JunkPrefix(u, s).value)
    ensures forall end: nat :: NumberAndDash(u, s, end) ==> JunkPrefix(u, s) == Some(end)
  {
    hide IsRegexSpace, CountWhile, RunOf;
    assert s[0..] == s;
    CountIsRun(u.digit, s, 0);
    var d := CountWhile(s, u.digit);
    CountIsRun(IsRegexSpace, s, d);
    var p := d + CountWhile(s[d..], IsRegexSpace);
    if d > 0 && p < |s| && s[p] == '-' {
      CountIsRun(IsRegexSpace, s, p + 1);
      var e := p + 1 + CountWhile(s[p + 1..], IsRegexSpace);
      assert NumberParts(u, s, d, p, e);
    }
  }

  predicate LetterAt(u: Unicode, s: string, i: nat) {
    i < |s| && u.letter(s[i])
  }

  /** The number and the dash are taken off exactly when a letter follows; then the name is cut to its limit. */
  lemma CleanNameMeans(u: Unicode, raw: string) returns (s: string, rest: string)
    ensures IsTrimmedOf(raw, s)
    ensures CleanItemName(u, raw) == if |rest| > 120 then rest[..120] else rest
    ensures forall end: nat :: NumberAndDash(u, s, end) && LetterAt(u, s, end) ==> IsTrimmedOf(s[end..], rest)
    ensures (forall end: nat :: NumberAndDash(u, s, end) ==> !LetterAt(u, s, end)) ==> rest == s
  {
    hide TrimSpace, NumberAndDash, JunkPrefix, IsTrimmedOf, IsRegexSpace;
    s := TrimSpace(raw);
    TrimMeans(raw);
    PrefixMeans(u, s);
    var junk := JunkPrefix(u, s);
    rest := if junk.Some? && junk.value < |s| && u.letter(s[junk.value]) then TrimSpace(s[junk.value..]) else s;
    if junk.Some? {
      TrimMeans(s[junk.value..]);
    }
  }

  // ----- the comparison form -----

  const SPELLINGS := "أإآةى"
  const PLAIN := "اااهي"

  /** A rune in its plain spelling; the tatweel is dropped. */
  function PlainRune(c: char): string {
    if c == 'ـ' then "" else if c in SPELLINGS then [PLAIN[PlaceOf(SPELLINGS, c)]] else [c]
  }

  function PlainRunes(u: Unicode, s: string): string {
    if s == "" then "" else PlainRunes(u, s[..|s| - 1]) + PlainRune(u.lower(s[|s| - 1]))
  }

  lemma SpellingsAre()
    ensures |SPELLINGS| == |PLAIN| == 5
    ensures SPELLINGS == ['\U{0623}', '\U{0625}', '\U{0622}', '\U{0629}', '\U{0649}']
    ensures PLAIN == ['\U{0627}', '\U{0627}', '\U{0627}', '\U{0647}', '\U{064A}'] && 'ـ' == '\U{0640}'
  {
  }

  lemma NormCharMeans(c: char)
    ensures NormChar(c) == PlainRune(c)
  {
    SpellingsAre();
    assert forall d :: d in SPELLINGS <==>
        d == SPELLINGS[0] || d == SPELLINGS[1] || d == SPELLINGS[2] || d == SPELLINGS[3] || d == SPELLINGS[4];
  }

  lemma {:induction false} NormCharsMean(u: Unicode, s: string)
    ensures NormChars(u, s) == PlainRunes(u, s)
  {
    hide NormChar, PlainRune;
    if s != "" {
      var n := |s| - 1;
      NormCharsMean(u, s[..n]);
      NormAppends(u, s[..n], s[n]);
      assert s == s[..n] + [s[n]];
      NormCharMeans(u.lower(s[n]));
    }
  }

  lemma {:induction false} NormAppends(u: Unicode, s: string, c: char)
    ensures NormChars(u, s + [c]) == NormChars(u, s) + NormChar(u.lower(c))
  {
    hide NormChar;
    if s == "" {
      assert ("" + [c])[1..] == "";
    } else {
      NormAppends(u, s[1..], c);
      assert (s + [c])[1..] == s[1..] + [c];
    }
  }

  /** The runes that are not blank. */
  function Letters(s: string): string {
    if s == "" then "" else Kept(s[0]) + Letters(s[1..])
  }

  function Kept(c: char): string {
    if IsSpace(c) then "" else [c]
  }

  lemma {:induction false} LettersJoin(a: string, b: string)
    ensures Letters(a + b) == Letters(a) + Letters(b)
  {
    hide Kept;
    if a == "" {
      assert a + b == b;
    } else {
      LettersJoin(a[1..], b);
      assert (a + b)[0] == a[0] && (a + b)[1..] == a[1..] + b;
      assert Kept(a[0]) + (Letters(a[1..]) + Letters(b)) == (Kept(a[0]) + Letters(a[1..])) + Letters(b);
    }
  }

  lemma {:induction false} LettersTrimmed(s: string)
    ensures Letters(TrimLeft(s)) == Letters(s)
  {
    hide IsSpace;
    if s != "" && IsSpace(s[0]) {
      LettersTrimmed(s[1..]);
    }
  }

  lemma {:induction false} JoinKeepsLetters(s: string)
    ensures Letters(JoinFields(s)) == Letters(s)
    decreases |s|
  {
    hide Letters, TrimLeft, WordLength;
    NoLetters();
    LettersTrimmed(s);
    var t := TrimLeft(s);
    if t != "" {
      var n := WordLength(t);
      LettersTrimmed(t[n..]);
      if TrimLeft(t[n..]) != "" {
        JoinKeepsLetters(t[n..]);
      }
      FirstWordLetters(t, n, JoinFields(t[n..]));
    }
  }

  lemma FirstWordLetters(t: string, n: nat, rest: string)
    requires n <= |t|
    ensures Letters(t) == Letters(t[..n]) + Letters(t[n..])
    ensures Letters(t[..n] + " " + rest) == Letters(t[..n]) + Letters(rest)
  {
    hide Letters;
    OneBlank();
    assert t == t[..n] + t[n..];
    LettersJoin(t[..n], t[n..]);
    LettersJoin(t[..n] + " ", rest);
    LettersJoin(t[..n], " ");
  }

  lemma OneBlank()
    ensures Letters(" ") == ""
  {
  }

  lemma NoLetters()
    ensures Letters("") == ""
  {
  }

  /** Single blanks between words, and none at the ends. */
  predicate WellSpaced(t: string) {
    forall i :: 0 <= i < |t| && IsSpace(t[i]) ==>
      t[i] == ' ' && 0 < i < |t| - 1 && !IsSpace(t[i - 1]) && !IsSpace(t[i + 1])
  }

  lemma {:induction false} WordIsSolid(t: string)
    ensures forall i :: 0 <= i < WordLength(t) ==> !IsSpace(t[i])
    ensures WordLength(t) < |t| ==> IsSpace(t[WordLength(t)])
  {
    hide IsSpace;
    if t != "" && !IsSpace(t[0]) {
      WordIsSolid(t[1..]);
    }
  }

  lemma {:induction false} JoinIsWellSpaced(s: string)
    ensures WellSpaced(JoinFields(s)) && (JoinFields(s) != "" ==> !IsSpace(JoinFields(s)[0]))
    ensures TrimLeft(s) != "" ==> JoinFields(s) != ""
    decreases |s|
  {
    hide IsSpace, WellSpaced, TrimLeft, WordLength;
    var t := TrimLeft(s);
    NothingWellSpaced();
    if t != "" {
      var n := WordLength(t);
      WordIsSolid(t);
      SolidWellSpaced(t[..n]);
      if TrimLeft(t[n..]) != "" {
        JoinIsWellSpaced(t[n..]);
        WordThenMore(t[..n], JoinFields(t[n..]));
      }
    }
  }

  lemma NothingWellSpaced()
    ensures WellSpaced("")
  {
  }

  lemma SolidWellSpaced(word: string)
    requires forall i :: 0 <= i < |word| ==> !IsSpace(word[i])
    ensures WellSpaced(word)
  {
  }

  lemma WordThenMore(word: string, more: string)
    requires word != "" && (forall i :: 0 <= i < |word| ==> !IsSpace(word[i]))
    requires more != "" && WellSpaced(more) && !IsSpace(more[0])
    ensures WellSpaced(word + " " + more)
  {
    hide IsSpace;
    var t := word + " " + more;
    var n := |word|;
    forall i | 0 <= i < |t| && IsSpace(t[i])
      ensures t[i] == ' ' && 0 < i < |t| - 1 && !IsSpace(t[i - 1]) && !IsSpace(t[i + 1])
    {
      if i > n {
        assert t[i] == more[i - n - 1];
        assert t[i - 1] == if i == n + 1 then ' ' else more[i - n - 2];
      }
    }
  }

  /** The comparison form of a name: its letters in lower case and plain spelling, in words with single blanks. */
  lemma NormNameMeans(u: Unicode, s: string) returns (mid: string)
    ensures IsTrimmedOf(s, mid)
    ensures Letters(NormName(u, s)) == Letters(PlainRunes(u, mid)) && WellSpaced(NormName(u, s))
  {
    hide TrimSpace, IsTrimmedOf, Letters, WellSpaced, JoinFields;
    mid := TrimSpace(s);
    TrimMeans(s);
    NormCharsMean(u, mid);
    JoinKeepsLetters(PlainRunes(u, mid));
    JoinIsWellSpaced(PlainRunes(u, mid));
  }
}
