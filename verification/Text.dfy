/** Item names and accounting links
    (backend/internal/catalog/pricesync.go, pricesync_create.go, item_link.go).
    A string is a sequence of Unicode scalar values. */
module Text {
  import opened Common

  /** The parts of the Unicode tables the code consults: lower case of one rune,
      category L, category Nd. Nothing is assumed about them. */
  datatype Unicode = Unicode(lower: char -> char, letter: char -> bool, digit: char -> bool)

  const MAX_ITEM_NAME := 120
  const MAX_LINK_LEN := 64

  // ----- white space -----

  /** unicode.IsSpace: the White_Space property. */
  predicate IsSpace(c: char) {
    || '\t' <= c <= '\r' || c == ' ' || c == '\U{0085}' || c == '\U{00A0}' || c == '\U{1680}'
    || '\U{2000}' <= c <= '\U{200A}' || c == '\U{2028}' || c == '\U{2029}' || c == '\U{202F}'
    || c == '\U{205F}' || c == '\U{3000}'
  }

  /** The \s of a regular expression, ASCII only. */
  predicate IsRegexSpace(c: char) {
    c == '\t' || c == '\n' || c == '\U{000C}' || c == '\r' || c == ' '
  }

  function TrimLeft(s: string): (t: string)
    ensures |t| <= |s| && (t == [] || !IsSpace(t[0]))
    ensures t == s[|s| - |t|..]
  {
    if s != [] && IsSpace(s[0]) then TrimLeft(s[1..]) else s
  }

  function TrimRight(s: string): (t: string)
    ensures |t| <= |s| && (t == [] || !IsSpace(t[|t| - 1]))
    ensures t == s[..|t|]
  {
    if s != [] && IsSpace(s[|s| - 1]) then TrimRight(s[..|s| - 1]) else s
  }

  function TrimSpace(s: string): string {
    TrimRight(TrimLeft(s))
  }

  /** No space at either end. */
  predicate Trimmed(s: string) {
    s == [] || (!IsSpace(s[0]) && !IsSpace(s[|s| - 1]))
  }

  lemma TrimSpaceTrims(s: string)
    ensures Trimmed(TrimSpace(s))
  {
    var l := TrimLeft(s);
    var t := TrimRight(l);
    if t != [] {
      assert t[0] == l[0];
    }
  }

  lemma TrimmedStays(s: string)
    requires Trimmed(s)
    ensures TrimSpace(s) == s
  {
  }

  // ----- links -----

  function LinkChar(c: char): char {
    if '\U{0660}' <= c <= '\U{0669}' then '0' + (c - '\U{0660}')
    else if '\U{06F0}' <= c <= '\U{06F9}' then '0' + (c - '\U{06F0}')
    else if c == '\U{066C}' then ','
    else if c == '\U{066B}' then '.'
    else c
  }

  /** The code or barcode as it is compared and stored: trimmed, with Latin digits and marks. */
  function LinkText(s: string): string {
    LinkChars(TrimSpace(s))
  }

  predicate ValidLink(v: string) {
    |v| <= MAX_LINK_LEN && ' ' !in v && '\t' !in v && '\r' !in v && '\n' !in v
  }

  function LinkChars(s: string): (l: string)
    ensures |l| == |s|
  {
    seq(|s|, i requires 0 <= i < |s| => LinkChar(s[i]))
  }

  lemma LinkCharsStay(s: string)
    ensures LinkChars(LinkChars(s)) == LinkChars(s)
  {
    assert forall i :: 0 <= i < |s| ==> LinkChar(LinkChar(s[i])) == LinkChar(s[i]);
  }

  lemma LinkCharsTrimmed(s: string)
    requires Trimmed(s)
    ensures Trimmed(LinkChars(s))
  {
  }

  /** A stored link is its own link: what one run writes, the next run finds. */
  lemma LinkTextIdempotent(s: string)
    ensures LinkText(LinkText(s)) == LinkText(s)
  {
    hide TrimSpace, LinkChars, Trimmed;
    var t := TrimSpace(s);
    TrimSpaceTrims(s);
    LinkCharsTrimmed(t);
    TrimmedStays(LinkChars(t));
    LinkCharsStay(t);
  }

  // ----- item names -----

  function CountWhile(s: string, p: char -> bool): (n: nat)
    ensures n <= |s|
    ensures forall i :: 0 <= i < n ==> p(s[i])
    ensures n < |s| ==> !p(s[n])
  {
    if s != [] && p(s[0]) then 1 + CountWhile(s[1..], p) else 0
  }

  /** The end of a match of ^\p{Nd}+\s*-\s* at the start of s. */
  function JunkPrefix(u: Unicode, s: string): (end: Option<nat>)
    ensures end.Some? ==> 2 <= end.value <= |s|
  {
    var d := CountWhile(s, u.digit);
    var p := d + CountWhile(s[d..], IsRegexSpace);
    if d > 0 && p < |s| && s[p] == '-' then Some(p + 1 + CountWhile(s[p + 1..], IsRegexSpace)) else None
  }

  function CleanItemName(u: Unicode, raw: string): (name: string)
    ensures |name| <= MAX_ITEM_NAME
  {
    var s := TrimSpace(raw);
    var junk := JunkPrefix(u, s);
    var t :=
      if junk.Some? && junk.value < |s| && u.letter(s[junk.value]) then TrimSpace(s[junk.value..]) else s;
    if |t| > MAX_ITEM_NAME then t[..MAX_ITEM_NAME] else t
  }

  /** One rune of the comparison form; the tatweel is dropped. */
  function NormChar(c: char): string {
    if c == '\U{0623}' || c == '\U{0625}' || c == '\U{0622}' then "\U{0627}"
    else if c == '\U{0629}' then "\U{0647}"
    else if c == '\U{0649}' then "\U{064A}"
    else if c == '\U{0640}' then ""
    else [c]
  }

  function NormChars(u: Unicode, s: string): string {
    if s == [] then "" else NormChar(u.lower(s[0])) + NormChars(u, s[1..])
  }

  function WordLength(t: string): (n: nat)
    ensures n <= |t|
    ensures t != [] && !IsSpace(t[0]) ==> n > 0
  {
    if t == [] || IsSpace(t[0]) then 0 else 1 + WordLength(t[1..])
  }

  /** The words of s joined by single blanks. */
  function JoinFields(s: string): string
    decreases |s|
  {
    var t := TrimLeft(s);
    if t == [] then ""
    else
      var n := WordLength(t);
      if TrimLeft(t[n..]) == [] then t[..n] else t[..n] + " " + JoinFields(t[n..])
  }

  function NormName(u: Unicode, s: string): string {
    JoinFields(NormChars(u, TrimSpace(s)))
  }

  // ----- the readings a list is matched by -----

  /** How links and names are read. */
  datatype TextRules = TextRules(
    trim: string -> string, link: string -> string, clean: string -> string, norm: string -> string)

  function RulesOf(u: Unicode): TextRules {
    TextRules(TrimSpace, LinkText, s => CleanItemName(u, s), s => NormName(u, s))
  }

  /** All that is needed of them. */
  ghost predicate Sensible(t: TextRules) {
    && (forall s :: t.link(t.link(s)) == t.link(s) && LinkChars(t.link(s)) == t.link(s))
    && t.link("") == "" && t.clean("") == ""
  }

  lemma LinkIsStable(s: string)
    ensures LinkText(LinkText(s)) == LinkText(s) && LinkChars(LinkText(s)) == LinkText(s)
  {
    hide TrimSpace, LinkChars;
    LinkTextIdempotent(s);
    LinkCharsStay(TrimSpace(s));
  }

  lemma EmptyTexts(u: Unicode)
    ensures LinkText("") == "" && CleanItemName(u, "") == ""
  {
  }

  lemma RulesAreSensible(u: Unicode)
    ensures Sensible(RulesOf(u))
  {
    hide NormName, LinkText, CleanItemName, LinkChars, TrimSpace;
    EmptyTexts(u);
    forall s
      ensures LinkText(LinkText(s)) == LinkText(s) && LinkChars(LinkText(s)) == LinkText(s)
    {
      LinkIsStable(s);
    }
  }
}
