/**
 * The Python string and number primitives the listing pipeline is built on:
 * str.lower(), str.strip(), the `in` test on strings, str.count(),
 * str.replace() of one character, str.isdigit(), re.findall(r'\d+', ...),
 * int() and float() of digit strings, str() of a natural number, and the
 * thousands grouping f"{n:,}".replace(',', '.') that prints "7.690".
 *
 * Numbers are exact: float() yields a `real`, so no rounding is modelled.
 */
module Text {
  import opened Wrappers

  // ------------------------------------------------------------------
  // Characters
  // ------------------------------------------------------------------

  /** The regex class [0-9] (and \d, restricted to ASCII digits). */
  predicate IsDigit(c: char) { '0' <= c <= '9' }

  function DigitVal(c: char): nat
    requires IsDigit(c)
  {
    c as int - '0' as int
  }

  function DigitChar(d: nat): (c: char)
    requires d < 10
    ensures IsDigit(c) && DigitVal(c) == d
  {
    ('0' as int + d) as char
  }

  /** Python's str.isspace(), which is also what the regex class \s matches. */
  predicate IsSpace(c: char) {
    c == ' ' || '\t' <= c <= '\r' || '\U{1C}' <= c <= '\U{1F}' || c == '\U{85}' || c == '\U{A0}'
    || c == '\U{1680}' || '\U{2000}' <= c <= '\U{200A}' || c == '\U{2028}' || c == '\U{2029}'
    || c == '\U{202F}' || c == '\U{205F}' || c == '\U{3000}'
  }

  /**
   * The regex class \w: letters, digits and the underscore. Exact for
   * Latin-1; above U+00FF every character counts as a word character except
   * whitespace, general punctuation, currency signs and CJK punctuation.
   */
  predicate IsWordChar(c: char) {
    IsDigit(c) || 'a' <= c <= 'z' || 'A' <= c <= 'Z' || c == '_'
    || c == '\U{AA}' || c == '\U{B2}' || c == '\U{B3}' || c == '\U{B5}' || c == '\U{B9}' || c == '\U{BA}'
    || '\U{BC}' <= c <= '\U{BE}' || '\U{C0}' <= c <= '\U{D6}' || '\U{D8}' <= c <= '\U{F6}'
    || '\U{F8}' <= c <= '\U{FF}'
    || (c > '\U{FF}' && !IsSpace(c) && !('\U{2000}' <= c <= '\U{206F}')
        && !('\U{20A0}' <= c <= '\U{20CF}') && !('\U{3000}' <= c <= '\U{303F}'))
  }

  /** str.lower() on one character: ASCII and Latin-1 capitals. */
  function LowerChar(c: char): char {
    if 'A' <= c <= 'Z' || ('\U{C0}' <= c <= '\U{DE}' && c != '\U{D7}') then (c as int + 32) as char else c
  }

  function Lower(s: string): (r: string)
    ensures |r| == |s| && forall i :: 0 <= i < |s| ==> r[i] == LowerChar(s[i])
  {
    seq(|s|, i requires 0 <= i < |s| => LowerChar(s[i]))
  }

  /** str.upper() on ASCII letters; other characters are kept. */
  function UpperChar(c: char): char {
    if 'a' <= c <= 'z' then (c as int - 32) as char else c
  }

  function Upper(s: string): (r: string)
    ensures |r| == |s| && forall i :: 0 <= i < |s| ==> r[i] == UpperChar(s[i])
  {
    seq(|s|, i requires 0 <= i < |s| => UpperChar(s[i]))
  }

  // ------------------------------------------------------------------
  // Whole-string tests and edits
  // ------------------------------------------------------------------

  /** str.strip(): drops leading and trailing whitespace. */
  function Strip(s: string): string {
    StripRight(StripLeft(s))
  }

  function StripLeft(s: string): string {
    if s != [] && IsSpace(s[0]) then StripLeft(s[1..]) else s
  }

  function StripRight(s: string): string {
    if s != [] && IsSpace(s[|s| - 1]) then StripRight(s[..|s| - 1]) else s
  }

  predicate HasAt(s: string, i: nat, w: string) {
    i + |w| <= |s| && s[i..i + |w|] == w
  }

  /** Python's `w in s` for strings. */
  predicate Contains(s: string, w: string) {
    exists i | 0 <= i <= |s| :: HasAt(s, i, w)
  }

  /** A word that holds a character the text lacks is not in the text. */
  lemma NotContainsByChar(s: string, w: string, k: nat)
    requires k < |w| && w[k] !in s
    ensures !Contains(s, w)
  {
    forall i | 0 <= i <= |s|
      ensures !HasAt(s, i, w)
    {
      if i + |w| <= |s| {
        assert s[i + k] in s;
        assert s[i..i + |w|][k] != w[k];
      }
    }
  }

  /** An occurrence inside a concatenation is an occurrence. */
  lemma ContainsAt(s: string, i: nat, w: string)
    requires HasAt(s, i, w)
    ensures Contains(s, w)
  {
  }

  /** A word written between two texts is found at the end of the first. */
  lemma ContainsInfix(a: string, w: string, b: string)
    ensures HasAt(a + w + b, |a|, w) && Contains(a + w + b, w)
    ensures HasAt(a + w + b, 0, a)
  {
    assert (a + w + b)[|a|..|a| + |w|] == w;
    assert (a + w + b)[..|a|] == a;
    ContainsAt(a + w + b, |a|, w);
  }

  /** The search behind `w in s`, from position i on; it computes on literal text. */
  function ContainsFrom(s: string, w: string, i: nat): bool
    requires i <= |s|
    decreases |s| - i
  {
    HasAt(s, i, w) || (i < |s| && ContainsFrom(s, w, i + 1))
  }

  lemma {:induction false} ContainsFromIff(s: string, w: string, i: nat)
    requires i <= |s|
    ensures ContainsFrom(s, w, i) <==> exists j | i <= j <= |s| :: HasAt(s, j, w)
    decreases |s| - i
  {
    if i < |s| {
      ContainsFromIff(s, w, i + 1);
    }
  }

  /** `w in s` is decided by the search from the start. */
  lemma DecideContains(s: string, w: string)
    ensures Contains(s, w) == ContainsFrom(s, w, 0)
  {
    ContainsFromIff(s, w, 0);
  }

  /** `any(w in s for w in ws)` */
  predicate ContainsAny(s: string, ws: seq<string>) {
    exists k | 0 <= k < |ws| :: Contains(s, ws[k])
  }

  /** The same test, one pattern after the other. */
  function ContainsAnyFrom(s: string, ws: seq<string>): bool
    decreases |ws|
  {
    ws != [] && (Contains(s, ws[0]) || ContainsAnyFrom(s, ws[1..]))
  }

  lemma {:induction false} DecideContainsAny(s: string, ws: seq<string>)
    ensures ContainsAny(s, ws) == ContainsAnyFrom(s, ws)
    decreases |ws|
  {
    if ws != [] {
      DecideContainsAny(s, ws[1..]);
      assert forall k | 1 <= k < |ws| :: ws[k] == ws[1..][k - 1];
      if ContainsAny(s, ws[1..]) {
        var k :| 0 <= k < |ws[1..]| && Contains(s, ws[1..][k]);
        assert Contains(s, ws[k + 1]);
      }
    }
  }

  /** A word with two neighbouring characters that never stand side by side in s is not in s. */
  lemma NotContainsByPair(s: string, w: string, k: nat)
    requires k + 1 < |w|
    requires forall i | 0 <= i < |s| - 1 :: !(s[i] == w[k] && s[i + 1] == w[k + 1])
    ensures !Contains(s, w)
  {
    forall i | 0 <= i <= |s|
      ensures !HasAt(s, i, w)
    {
      if i + |w| <= |s| {
        assert s[i..i + |w|][k] == s[i + k] && s[i..i + |w|][k + 1] == s[i + k + 1];
      }
    }
  }

  lemma LowerConcat(a: string, b: string)
    ensures Lower(a + b) == Lower(a) + Lower(b)
  {
    var l, r := Lower(a + b), Lower(a) + Lower(b);
    forall i | 0 <= i < |l| ensures l[i] == r[i] {
      if i < |a| { assert (a + b)[i] == a[i]; } else { assert (a + b)[i] == b[i - |a|]; }
    }
  }

  /** Text with no capital letter is its own lower case. */
  lemma LowerUnchanged(s: string)
    requires forall i | 0 <= i < |s| :: LowerChar(s[i]) == s[i]
    ensures Lower(s) == s
  {
  }

  lemma {:induction false} RemoveAbsent(s: string, c: char)
    requires c !in s
    ensures RemoveChar(s, c) == s
  {
    if s != [] {
      RemoveAbsent(s[1..], c);
    }
  }

  /** Lower-cased text holds no ASCII capital. */
  lemma LowerHasNoCapital(s: string, c: char)
    requires 'A' <= c <= 'Z'
    ensures c !in Lower(s)
  {
    var r := Lower(s);
    forall i | 0 <= i < |r| ensures r[i] != c {
      assert r[i] == LowerChar(s[i]);
    }
  }

  /** str.count(c) for a single character. */
  function CountChar(s: string, c: char): (n: nat)
    ensures n == 0 <==> c !in s
    ensures n <= |s|
  {
    if s == [] then 0 else (if s[0] == c then 1 else 0) + CountChar(s[1..], c)
  }

  lemma {:induction false} CountCharConcat(a: string, b: string, c: char)
    ensures CountChar(a + b, c) == CountChar(a, c) + CountChar(b, c)
  {
    if a != [] {
      assert (a + b)[1..] == a[1..] + b;
      CountCharConcat(a[1..], b, c);
    } else {
      assert a + b == b;
    }
  }

  /** s.replace(c, '') for a single character. */
  function RemoveChar(s: string, c: char): (r: string)
    ensures c !in r
    ensures |r| == |s| - CountChar(s, c)
  {
    if s == [] then [] else (if s[0] == c then [] else [s[0]]) + RemoveChar(s[1..], c)
  }

  lemma {:induction false} RemoveCharConcat(a: string, b: string, c: char)
    ensures RemoveChar(a + b, c) == RemoveChar(a, c) + RemoveChar(b, c)
  {
    if a != [] {
      assert (a + b)[1..] == a[1..] + b;
      RemoveCharConcat(a[1..], b, c);
    } else {
      assert a + b == b;
    }
  }

  /** s.replace(a, b) for single characters. */
  function ReplaceChar(s: string, a: char, b: char): (r: string)
    ensures |r| == |s|
    ensures forall i :: 0 <= i < |s| ==> r[i] == (if s[i] == a then b else s[i])
  {
    seq(|s|, i requires 0 <= i < |s| => if s[i] == a then b else s[i])
  }

  /** Replacing the one separator of a text. */
  lemma ReplaceSeparator(a: string, b: string, c: char, d: char)
    requires c !in a && c !in b
    ensures ReplaceChar(a + [c] + b, c, d) == a + [d] + b
  {
    var s, t := a + [c] + b, a + [d] + b;
    forall i | 0 <= i < |s| ensures ReplaceChar(s, c, d)[i] == t[i] {
      if i < |a| { assert s[i] == a[i] && t[i] == a[i]; }
      else if i > |a| { assert s[i] == b[i - |a| - 1] && t[i] == b[i - |a| - 1]; }
    }
  }

  /** s.replace(w, rep) for a non-empty w: occurrences replaced left to right, never overlapping. */
  function ReplaceAll(s: string, w: string, rep: string): string
    requires w != []
    decreases |s|
  {
    if s == [] then []
    else if HasAt(s, 0, w) then rep + ReplaceAll(s[|w|..], w, rep)
    else [s[0]] + ReplaceAll(s[1..], w, rep)
  }

  /** Text without an occurrence of w comes through a replace unchanged. */
  lemma {:induction false} ReplaceAbsent(s: string, w: string, rep: string)
    requires w != [] && !Contains(s, w)
    ensures ReplaceAll(s, w, rep) == s
    decreases |s|
  {
    if s != [] {
      assert !HasAt(s, 0, w);
      assert !Contains(s[1..], w) by {
        forall i | 0 <= i <= |s[1..]| ensures !HasAt(s[1..], i, w) {
          if HasAt(s[1..], i, w) {
            assert s[i + 1..i + 1 + |w|] == s[1..][i..i + |w|];
            assert HasAt(s, i + 1, w);
          }
        }
      }
      ReplaceAbsent(s[1..], w, rep);
    }
  }

  /** A leading occurrence is replaced, and the rest is handled on its own. */
  lemma ReplaceFront(w: string, s: string, rep: string)
    requires w != []
    ensures ReplaceAll(w + s, w, rep) == rep + ReplaceAll(s, w, rep)
  {
    assert HasAt(w + s, 0, w) by { assert (w + s)[..|w|] == w; }
    assert (w + s)[|w|..] == s;
  }

  /** re.sub(r'[^0-9,.]', '', s): keeps digits, commas and dots, in order. */
  function KeepNumberChars(s: string): (r: string)
    ensures OnlyNumberChars(r)
    ensures |r| <= |s|
  {
    if s == [] then []
    else (if IsDigit(s[0]) || s[0] == ',' || s[0] == '.' then [s[0]] else []) + KeepNumberChars(s[1..])
  }

  predicate OnlyNumberChars(s: string) {
    forall i :: 0 <= i < |s| ==> IsDigit(s[i]) || s[i] == ',' || s[i] == '.'
  }

  predicate OnlyDigitsAndDots(s: string) {
    forall i :: 0 <= i < |s| ==> IsDigit(s[i]) || s[i] == '.'
  }

  lemma {:induction false} KeepNumberCharsConcat(a: string, b: string)
    ensures KeepNumberChars(a + b) == KeepNumberChars(a) + KeepNumberChars(b)
  {
    if a != [] {
      assert (a + b)[1..] == a[1..] + b;
      KeepNumberCharsConcat(a[1..], b);
    } else {
      assert a + b == b;
    }
  }

  lemma {:induction false} KeepNumberCharsKeeps(s: string)
    requires OnlyNumberChars(s)
    ensures KeepNumberChars(s) == s
  {
    if s != [] {
      KeepNumberCharsKeeps(s[1..]);
    }
  }

  lemma {:induction false} KeepNumberCharsDrops(s: string)
    requires forall i :: 0 <= i < |s| ==> !IsDigit(s[i]) && s[i] != ',' && s[i] != '.'
    ensures KeepNumberChars(s) == []
  {
    if s != [] {
      KeepNumberCharsDrops(s[1..]);
    }
  }

  /** Index of the first occurrence of c (s.index(c)). */
  function IndexOf(s: string, c: char): (i: nat)
    requires c in s
    ensures i < |s| && s[i] == c && c !in s[..i]
  {
    if s[0] == c then 0 else 1 + IndexOf(s[1..], c)
  }

  /** s.split(c)[0] when c occurs in s. */
  function Before(s: string, c: char): string
    requires c in s
  {
    s[..IndexOf(s, c)]
  }

  /** s.split(c)[1] when c occurs in s exactly once. */
  function After(s: string, c: char): string
    requires c in s
  {
    s[IndexOf(s, c) + 1..]
  }

  /** With exactly one c, the text splits around it into two c-free parts. */
  lemma {:induction false} SplitOnce(s: string, c: char)
    requires CountChar(s, c) == 1
    ensures s == Before(s, c) + [c] + After(s, c)
    ensures c !in Before(s, c) && c !in After(s, c)
  {
    var i := IndexOf(s, c);
    assert s == s[..i] + [c] + s[i + 1..];
    CountCharConcat(s[..i] + [c], s[i + 1..], c);
    CountCharConcat(s[..i], [c], c);
  }

  // ------------------------------------------------------------------
  // Digit strings and their values
  // ------------------------------------------------------------------

  predicate AllDigits(s: string) {
    forall i :: 0 <= i < |s| ==> IsDigit(s[i])
  }

  /** str.isdigit() on text made of ASCII digits: non-empty and all digits. */
  predicate IsDigitString(s: string) {
    |s| > 0 && AllDigits(s)
  }

  function Pow10(n: nat): (p: nat)
    ensures p >= 1
  {
    if n == 0 then 1 else 10 * Pow10(n - 1)
  }

  /** int(s) for a string of digits (0 for the empty string). */
  function DigitsValue(s: string): nat
    requires AllDigits(s)
  {
    if s == [] then 0 else DigitsValue(s[..|s| - 1]) * 10 + DigitVal(s[|s| - 1])
  }

  lemma {:induction false} DigitsValueConcat(a: string, b: string)
    requires AllDigits(a) && AllDigits(b)
    ensures AllDigits(a + b)
    ensures DigitsValue(a + b) == DigitsValue(a) * Pow10(|b|) + DigitsValue(b)
  {
    if b == [] {
      assert a + b == a;
    } else {
      var b' := b[..|b| - 1];
      var d := b[|b| - 1];
      assert a + b == (a + b') + [d];
      DigitsValueConcat(a, b');
      assert DigitsValue(a + b) == DigitsValue(a + b') * 10 + DigitVal(d);
      assert DigitsValue(b) == DigitsValue(b') * 10 + DigitVal(d);
      ShiftDistributes(DigitsValue(a), DigitsValue(b'), Pow10(|b'|), DigitVal(d));
    }
  }

  lemma ShiftDistributes(x: nat, y: nat, p: nat, d: nat)
    ensures (x * p + y) * 10 + d == x * (10 * p) + (y * 10 + d)
  {
  }

  /** str(n): decimal digits without leading zeros. */
  function NatToString(n: nat): (r: string)
    ensures IsDigitString(r)
    ensures DigitsValue(r) == n
    ensures n > 0 ==> r[0] != '0'
  {
    if n < 10 then [DigitChar(n)]
    else
      var r := NatToString(n / 10) + [DigitChar(n % 10)];
      assert r[..|r| - 1] == NatToString(n / 10);
      r
  }

  /** The value is the whole point of NatToString: int(str(n)) == n. */
  lemma NatToStringInjective(m: nat, n: nat)
    requires NatToString(m) == NatToString(n)
    ensures m == n
  {
  }

  /** Three digits with leading zeros, as {:03d}. */
  function Pad3(n: nat): (r: string)
    requires n < 1000
    ensures |r| == 3 && AllDigits(r) && DigitsValue(r) == n
  {
    var a, b, c := DigitChar(n / 100), DigitChar(n / 10 % 10), DigitChar(n % 10);
    var r := [a, b, c];
    assert r[..2] == [a, b] && [a, b][..1] == [a] && [a][..0] == [];
    assert DigitsValue([a]) == n / 100;
    assert DigitsValue([a, b]) == n / 100 * 10 + n / 10 % 10;
    assert DigitsValue(r) == (n / 100 * 10 + n / 10 % 10) * 10 + n % 10;
    r
  }

  /** f"{n:,}".replace(',', '.'): groups of three digits separated by dots. */
  function Grouped(n: nat): (r: string)
    ensures |r| > 0 && OnlyDigitsAndDots(r) && IsDigit(r[0])
  {
    if n < 1000 then NatToString(n) else Grouped(n / 1000) + "." + Pad3(n % 1000)
  }

  /** Dropping the dots of a grouped number gives back its digits. */
  lemma {:induction false} GroupedDigits(n: nat)
    ensures AllDigits(RemoveChar(Grouped(n), '.'))
    ensures DigitsValue(RemoveChar(Grouped(n), '.')) == n
  {
    if n < 1000 {
      NoDotRemoved(NatToString(n));
    } else {
      var g, p := Grouped(n / 1000), Pad3(n % 1000);
      assert Grouped(n) == (g + ".") + p;
      GroupedDigits(n / 1000);
      DotsDroppedAround(g, p);
      DigitsValueConcat(RemoveChar(g, '.'), p);
      assert Pow10(3) == 1000;
    }
  }

  lemma DotsDroppedAround(g: string, p: string)
    requires AllDigits(p)
    ensures RemoveChar((g + ".") + p, '.') == RemoveChar(g, '.') + p
  {
    RemoveCharConcat(g + ".", p, '.');
    RemoveCharConcat(g, ".", '.');
    NoDotRemoved(p);
  }

  lemma {:induction false} NoDotRemoved(s: string)
    requires AllDigits(s)
    ensures RemoveChar(s, '.') == s
  {
    if s != [] {
      NoDotRemoved(s[1..]);
    }
  }

  /**
   * How many dots a grouped number has: none below one thousand, one below
   * one million, more from there on.
   */
  lemma {:induction false} GroupedDots(n: nat)
    ensures CountChar(Grouped(n), '.') == 0 <==> n < 1000
    ensures CountChar(Grouped(n), '.') == 1 <==> 1000 <= n < 1000000
  {
    if n >= 1000 {
      var g, p := Grouped(n / 1000), Pad3(n % 1000);
      CountCharConcat(g + ".", p, '.');
      CountCharConcat(g, ".", '.');
      assert forall i | 0 <= i < |p| :: p[i] != '.';
      GroupedDots(n / 1000);
    }
  }

  /** Below one million the single dot splits off the three last digits. */
  lemma GroupedSplit(n: nat)
    requires 1000 <= n < 1000000
    ensures '.' in Grouped(n)
    ensures Before(Grouped(n), '.') == NatToString(n / 1000)
    ensures After(Grouped(n), '.') == Pad3(n % 1000)
  {
    var g := Grouped(n);
    var q := NatToString(n / 1000);
    assert n / 1000 < 1000 && Grouped(n / 1000) == q;
    assert g == q + "." + Pad3(n % 1000);
    assert forall i | 0 <= i < |q| :: q[i] != '.';
    IndexAfterPrefix(q, Pad3(n % 1000), '.');
  }

  lemma {:induction false} IndexAfterPrefix(a: string, b: string, c: char)
    requires c !in a
    ensures c in a + [c] + b && IndexOf(a + [c] + b, c) == |a|
  {
    var s := a + [c] + b;
    assert s[|a|] == c;
    if a != [] {
      assert s[0] == a[0] && s[0] != c;
      assert s[1..] == a[1..] + [c] + b;
      IndexAfterPrefix(a[1..], b, c);
    }
  }

  // ------------------------------------------------------------------
  // Parsing: re.findall(r'\d+'), float(), int()
  // ------------------------------------------------------------------

  /** The longest run of digits at the start of s. */
  function DigitPrefix(s: string): (r: string)
    ensures AllDigits(r) && |r| <= |s| && r == s[..|r|]
    ensures |r| < |s| ==> !IsDigit(s[|r|])
  {
    if s != [] && IsDigit(s[0]) then [s[0]] + DigitPrefix(s[1..]) else []
  }

  /** re.findall(r'\d+', s)[0], or None when s has no digit. */
  function FirstDigitRun(s: string): (r: Option<string>)
    ensures r.Some? <==> exists i | 0 <= i < |s| :: IsDigit(s[i])
    ensures r.Some? ==> IsDigitString(r.value)
  {
    if s == [] then None
    else if IsDigit(s[0]) then Some(DigitPrefix(s))
    else
      var r := FirstDigitRun(s[1..]);
      assert forall i | 1 <= i < |s| :: s[i] == s[1..][i - 1];
      r
  }

  /** int() of the first run of digits. */
  function FirstNumber(s: string): (r: Option<nat>)
    ensures r.Some? <==> exists i | 0 <= i < |s| :: IsDigit(s[i])
  {
    match FirstDigitRun(s)
    case None => None
    case Some(d) => Some(DigitsValue(d))
  }

  /** A digit string followed by a digit-free tail reads back as itself. */
  lemma {:induction false} FirstDigitRunOfDigits(d: string, tail: string)
    requires IsDigitString(d)
    requires |tail| == 0 || !IsDigit(tail[0])
    ensures FirstDigitRun(d + tail) == Some(d)
  {
    DigitPrefixOf(d, tail);
  }

  lemma {:induction false} DigitPrefixOf(d: string, tail: string)
    requires AllDigits(d)
    requires |tail| == 0 || !IsDigit(tail[0])
    ensures DigitPrefix(d + tail) == d
  {
    if d == [] {
      assert d + tail == tail;
    } else {
      assert (d + tail)[1..] == d[1..] + tail;
      DigitPrefixOf(d[1..], tail);
    }
  }

  /** ''.join(re.findall(r'\d+', s)): every digit of s, in order. */
  function KeepDigits(s: string): (r: string)
    ensures AllDigits(r)
    ensures r == [] <==> forall i | 0 <= i < |s| :: !IsDigit(s[i])
  {
    if s == [] then []
    else
      var r := (if IsDigit(s[0]) then [s[0]] else []) + KeepDigits(s[1..]);
      assert forall i | 1 <= i < |s| :: s[i] == s[1..][i - 1];
      r
  }

  lemma {:induction false} KeepDigitsConcat(a: string, b: string)
    ensures KeepDigits(a + b) == KeepDigits(a) + KeepDigits(b)
  {
    if a != [] {
      assert (a + b)[1..] == a[1..] + b;
      KeepDigitsConcat(a[1..], b);
    } else {
      assert a + b == b;
    }
  }

  lemma {:induction false} KeepDigitsOfDigits(s: string)
    requires AllDigits(s)
    ensures KeepDigits(s) == s
  {
    if s != [] {
      KeepDigitsOfDigits(s[1..]);
    }
  }

  /** Deleting a non-digit character leaves the digits as they were. */
  lemma {:induction false} KeepDigitsRemoveChar(s: string, c: char)
    requires !IsDigit(c)
    ensures KeepDigits(RemoveChar(s, c)) == KeepDigits(s)
  {
    if s != [] {
      KeepDigitsRemoveChar(s[1..], c);
      var head := if s[0] == c then [] else [s[0]];
      KeepDigitsConcat(head, RemoveChar(s[1..], c));
      assert KeepDigits(head) == (if IsDigit(s[0]) then [s[0]] else []) by {
        if head != [] { assert head[1..] == []; }
      }
    }
  }

  /** The digits of a dotted number are what is left once its dots are deleted. */
  lemma {:induction false} KeepDigitsOfDotted(s: string)
    requires OnlyDigitsAndDots(s)
    ensures KeepDigits(s) == RemoveChar(s, '.')
  {
    if s != [] {
      KeepDigitsOfDotted(s[1..]);
    }
  }

  /** whole.frac as an exact number. */
  function DecimalValue(whole: string, frac: string): real
    requires AllDigits(whole) && AllDigits(frac)
  {
    DigitsValue(whole) as real + DigitsValue(frac) as real / Pow10(|frac|) as real
  }

  /**
   * Python's float() of a string; None where float() raises ValueError.
   * Only digits and at most one dot, with at least one digit, are accepted
   * (the only strings the pipeline hands to float() are made of digits,
   * dots and commas).
   */
  function PyFloat(s: string): (r: Option<real>)
    ensures r.Some? ==> r.value >= 0.0
  {
    if !OnlyDigitsAndDots(s) then None
    else if CountChar(s, '.') == 0 then
      if s == [] then None else Some(DigitsValue(s) as real)
    else if CountChar(s, '.') == 1 then
      var w, f := Before(s, '.'), After(s, '.');
      DigitsAroundDot(s, w, f);
      if w == [] && f == [] then None else Some(DecimalValue(w, f))
    else None
  }

  /** Both sides of the one dot in a string of digits and dots are digits. */
  lemma DigitsAroundDot(s: string, w: string, f: string)
    requires OnlyDigitsAndDots(s) && CountChar(s, '.') == 1
    requires w == Before(s, '.') && f == After(s, '.')
    ensures AllDigits(w) && AllDigits(f)
  {
    SplitOnce(s, '.');
    forall i | 0 <= i < |w| ensures IsDigit(w[i]) { assert w[i] == s[i]; }
    forall i | 0 <= i < |f| ensures IsDigit(f[i]) { assert f[i] == s[|w| + 1 + i]; }
  }

  /** float() of a digit string is its integer value. */
  lemma PyFloatOfDigits(s: string)
    requires IsDigitString(s)
    ensures PyFloat(s) == Some(DigitsValue(s) as real)
  {
    assert forall i | 0 <= i < |s| :: s[i] != '.';
  }

  /** float() needs a digit. */
  lemma PyFloatNeedsDigit(s: string)
    requires PyFloat(s).Some?
    ensures exists i | 0 <= i < |s| :: IsDigit(s[i])
  {
    if CountChar(s, '.') == 0 {
      assert IsDigit(s[0]) by { assert s[0] in s; }
    } else {
      SplitOnce(s, '.');
      var w, f := Before(s, '.'), After(s, '.');
      if w != [] {
        assert s[0] == w[0] && w[0] != '.' && s[0] in s;
      } else {
        assert f != [] && s[|w| + 1] == f[0] && f[0] != '.' && s[|w| + 1] in s;
      }
    }
  }

  /** float() of digits, a dot and digits is the decimal number they spell. */
  lemma PyFloatDecimal(w: string, f: string)
    requires AllDigits(w) && AllDigits(f) && (w != [] || f != [])
    ensures PyFloat(w + "." + f) == Some(DecimalValue(w, f))
  {
    var s := w + "." + f;
    assert forall i | 0 <= i < |w| :: w[i] != '.';
    assert forall i | 0 <= i < |f| :: f[i] != '.';
    assert CountChar(w, '.') == 0 && CountChar(f, '.') == 0;
    CountCharConcat(w + ".", f, '.');
    CountCharConcat(w, ".", '.');
    IndexAfterPrefix(w, f, '.');
    assert s == w + ['.'] + f;
    assert Before(s, '.') == w && After(s, '.') == f;
  }

  /** float() rejects anything holding a comma. */
  lemma PyFloatRejectsComma(s: string)
    requires ',' in s
    ensures PyFloat(s) == None
  {
  }

  /** float() raises for a lone dot and for the empty string. */
  lemma PyFloatErrors()
    ensures PyFloat(".") == None && PyFloat("") == None
  {
    assert Before(".", '.') == [] && After(".", '.') == [];
  }

  /** float() accepts a digitless whole part or fraction: "5." and ".5". */
  lemma PyFloatHalves()
    ensures PyFloat("5.") == Some(5.0)
    ensures PyFloat(".5") == Some(0.5)
  {
    assert Before("5.", '.') == "5" && After("5.", '.') == [];
    assert Before(".5", '.') == [] && After(".5", '.') == "5";
    assert DigitsValue("5") == 5;
  }
}
