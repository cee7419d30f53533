/**
 * The fixed regular expressions of the scrapers and the cleaner, written as
 * chains of tokens separated by gaps and anchored by word boundaries:
 * `\bcb[\-\s]*125[\-\s]*r\b` is the chain "cb", [\-\s]*, "125", [\-\s]*, "r".
 *
 * Each gap is skipped greedily. That agrees with Python's backtracking search
 * because, in every pattern used here, the character that follows a gap can
 * never be a gap character, and an unbounded digit run is only ever followed
 * by \b (stopping a digit run early leaves a digit next to a digit, which is
 * no boundary). An optional dot right before the closing \b adds nothing:
 * `Ltd\.?\b` matches exactly where `Ltd\b` does, since a letter next to a dot
 * is already a boundary.
 *
 * Also here: the two unanchored year scans `(20[0-9]{2})` and `(19|20)\d{2}`.
 */
module Patterns {
  import opened Wrappers
  import opened Text

  /** A literal piece, `\d+`, or `\d{n}`. */
  datatype Token = Lit(w: string) | Digits | DigitsN(n: nat)

  /**
   * What may stand between two tokens: nothing, `[\-\s]*`, `\s*`,
   * `[\-\.\/]\s*`, `\s*[\-\.\/]\s*`, or `\.?`.
   */
  datatype Gap = Adjacent | DashesOrSpaces | Spaces | PunctThenSpaces | SpacedPunct | OptionalDot

  datatype Step = Step(gap: Gap, token: Token)

  /** `\b first gap token ... \b` */
  datatype Pattern = Pattern(first: Token, steps: seq<Step>)

  /** The regex anchor \b at position i. */
  predicate Boundary(s: string, i: nat)
    requires i <= |s|
  {
    (i > 0 && IsWordChar(s[i - 1])) != (i < |s| && IsWordChar(s[i]))
  }

  predicate IsPunct(c: char) { c == '-' || c == '.' || c == '/' }

  function SkipSpaces(s: string, i: nat): (j: nat)
    requires i <= |s|
    ensures i <= j <= |s|
    decreases |s| - i
  {
    if i < |s| && IsSpace(s[i]) then SkipSpaces(s, i + 1) else i
  }

  function SkipDashesOrSpaces(s: string, i: nat): (j: nat)
    requires i <= |s|
    ensures i <= j <= |s|
    decreases |s| - i
  {
    if i < |s| && (s[i] == '-' || IsSpace(s[i])) then SkipDashesOrSpaces(s, i + 1) else i
  }

  function SkipDigits(s: string, i: nat): (j: nat)
    requires i <= |s|
    ensures i <= j <= |s|
    ensures j < |s| ==> !IsDigit(s[j])
    decreases |s| - i
  {
    if i < |s| && IsDigit(s[i]) then SkipDigits(s, i + 1) else i
  }

  function GapEnd(s: string, i: nat, g: Gap): (r: Option<nat>)
    requires i <= |s|
    ensures r.Some? ==> i <= r.value <= |s|
  {
    match g
    case Adjacent => Some(i)
    case DashesOrSpaces => Some(SkipDashesOrSpaces(s, i))
    case Spaces => Some(SkipSpaces(s, i))
    case PunctThenSpaces => if i < |s| && IsPunct(s[i]) then Some(SkipSpaces(s, i + 1)) else None
    case SpacedPunct =>
      var j := SkipSpaces(s, i);
      if j < |s| && IsPunct(s[j]) then Some(SkipSpaces(s, j + 1)) else None
    case OptionalDot => if i < |s| && s[i] == '.' then Some(i + 1) else Some(i)
  }

  function TokenEnd(s: string, i: nat, t: Token): (r: Option<nat>)
    requires i <= |s|
    ensures r.Some? ==> i <= r.value <= |s|
  {
    match t
    case Lit(w) => if HasAt(s, i, w) then Some(i + |w|) else None
    case Digits => if i < |s| && IsDigit(s[i]) then Some(SkipDigits(s, i)) else None
    case DigitsN(n) => if i + n <= |s| && AllDigits(s[i..i + n]) then Some(i + n) else None
  }

  function StepsEnd(s: string, i: nat, steps: seq<Step>): (r: Option<nat>)
    requires i <= |s|
    ensures r.Some? ==> i <= r.value <= |s|
    decreases |steps|
  {
    if steps == [] then Some(i)
    else
      match GapEnd(s, i, steps[0].gap)
      case None => None
      case Some(j) =>
        match TokenEnd(s, j, steps[0].token)
        case None => None
        case Some(k) => StepsEnd(s, k, steps[1..])
  }

  /** Where a match of p that starts at i ends, if one does. */
  function MatchEnd(s: string, i: nat, p: Pattern): (r: Option<nat>)
    requires i <= |s|
    ensures r.Some? ==> i <= r.value <= |s|
  {
    match TokenEnd(s, i, p.first)
    case None => None
    case Some(j) => StepsEnd(s, j, p.steps)
  }

  predicate MatchesAt(s: string, i: nat, p: Pattern)
    requires i <= |s|
  {
    Boundary(s, i) && MatchEnd(s, i, p).Some? && Boundary(s, MatchEnd(s, i, p).value)
  }

  /** re.search(p, s) is not None. */
  predicate Matches(s: string, p: Pattern) {
    exists i | 0 <= i <= |s| :: MatchesAt(s, i, p)
  }

  /** any(re.search(p, s) for p in ps) */
  predicate MatchesAny(s: string, ps: seq<Pattern>) {
    exists k | 0 <= k < |ps| :: Matches(s, ps[k])
  }

  /** The search behind re.search, from position i on; it computes on literal text. */
  function MatchesFrom(s: string, p: Pattern, i: nat): bool
    requires i <= |s|
    decreases |s| - i
  {
    MatchesAt(s, i, p) || (i < |s| && MatchesFrom(s, p, i + 1))
  }

  lemma {:induction false} MatchesFromIff(s: string, p: Pattern, i: nat)
    requires i <= |s|
    ensures MatchesFrom(s, p, i) <==> exists j | i <= j <= |s| :: MatchesAt(s, j, p)
    decreases |s| - i
  {
    if i < |s| {
      MatchesFromIff(s, p, i + 1);
    }
  }

  lemma DecideMatches(s: string, p: Pattern)
    ensures Matches(s, p) == MatchesFrom(s, p, 0)
  {
    MatchesFromIff(s, p, 0);
  }

  /** A pattern that opens with digits never matches text without a digit. */
  lemma NoMatchWithoutDigit(s: string, p: Pattern)
    requires p.first.Digits? || (p.first.DigitsN? && p.first.n > 0)
    requires forall i | 0 <= i < |s| :: !IsDigit(s[i])
    ensures !Matches(s, p)
  {
    forall i | 0 <= i <= |s| ensures !MatchesAt(s, i, p) {
      NoDigitToken(s, i, p.first);
    }
  }

  lemma NoDigitToken(s: string, i: nat, t: Token)
    requires i <= |s| && (t.Digits? || (t.DigitsN? && t.n > 0))
    requires forall k | 0 <= k < |s| :: !IsDigit(s[k])
    ensures TokenEnd(s, i, t).None?
  {
    if t.DigitsN? && i + t.n <= |s| {
      assert s[i..i + t.n][0] == s[i];
    }
  }

  lemma MatchWitness(s: string, i: nat, ps: seq<Pattern>, k: nat)
    requires k < |ps| && i <= |s| && MatchesAt(s, i, ps[k])
    ensures MatchesAny(s, ps)
  {
  }

  /** A pattern whose first literal holds a character missing from s never matches. */
  lemma NoMatchWithoutChar(s: string, p: Pattern, k: nat)
    requires p.first.Lit? && k < |p.first.w| && p.first.w[k] !in s
    ensures !Matches(s, p)
  {
    NotContainsByChar(s, p.first.w, k);
  }

  /** `\ba\.?b\b` matches a dotted pair such as "s.a" standing alone. */
  lemma DottedPairAt(s: string, i: nat, a: char, b: char)
    requires i + 3 <= |s| && s[i] == a && s[i + 1] == '.' && s[i + 2] == b
    requires IsWordChar(a) && IsWordChar(b)
    requires i == 0 || !IsWordChar(s[i - 1])
    requires i + 3 == |s| || !IsWordChar(s[i + 3])
    ensures MatchesAt(s, i, Pattern(Lit([a]), [Step(OptionalDot, Lit([b]))]))
  {
    var steps := [Step(OptionalDot, Lit([b]))];
    assert s[i..i + 1] == [a] && s[i + 2..i + 3] == [b];
    assert TokenEnd(s, i, Lit([a])) == Some(i + 1);
    assert GapEnd(s, i + 1, OptionalDot) == Some(i + 2);
    assert TokenEnd(s, i + 2, Lit([b])) == Some(i + 3);
    assert steps[1..] == [];
    assert StepsEnd(s, i + 1, steps) == Some(i + 3);
  }

  /** A whole word of s, set off by non-word characters or the ends, matches as a bare literal. */
  lemma WordAt(s: string, i: nat, w: string)
    requires |w| > 0 && IsWordChar(w[0]) && IsWordChar(w[|w| - 1])
    requires i + |w| <= |s| && s[i..i + |w|] == w
    requires i == 0 || !IsWordChar(s[i - 1])
    requires i + |w| == |s| || !IsWordChar(s[i + |w|])
    ensures MatchesAt(s, i, Pattern(Lit(w), []))
  {
    assert s[i] == w[0] && s[i + |w| - 1] == w[|w| - 1];
  }

  /** Patterns with a word literal of one character or more start at a word character. */
  lemma MatchStartsWord(s: string, i: nat, p: Pattern)
    requires i <= |s| && p.first.Lit? && |p.first.w| > 0 && MatchesAt(s, i, p)
    ensures s[i] == p.first.w[0]
  {
    assert s[i..i + |p.first.w|][0] == s[i];
  }

  // ------------------------------------------------------------------
  // Unanchored year scans
  // ------------------------------------------------------------------

  predicate YearAt(s: string, i: nat, century: string)
    requires |century| == 2
  {
    i + 4 <= |s| && s[i] == century[0] && s[i + 1] == century[1] && IsDigit(s[i + 2]) && IsDigit(s[i + 3])
  }

  /** re.search(r'(20[0-9]{2})', s), as an int. */
  function First20Year(s: string): (r: Option<nat>)
    ensures r.Some? ==> 2000 <= r.value <= 2099
  {
    if |s| < 4 then None
    else if YearAt(s, 0, "20") then
      FourDigits(s[..4]);
      Some(DigitsValue(s[..4]))
    else
      First20Year(s[1..])
  }

  /** re.search(r'(19|20)\d{2}', s), as an int. */
  function First19Or20Year(s: string): (r: Option<nat>)
    ensures r.Some? ==> 1900 <= r.value <= 2099
    decreases |s|
  {
    if |s| < 4 then None
    else if YearAt(s, 0, "19") || YearAt(s, 0, "20") then
      FourDigits(s[..4]);
      Some(DigitsValue(s[..4]))
    else First19Or20Year(s[1..])
  }

  /** Text without a digit holds no year. */
  lemma {:induction false} First20YearNeedsDigit(s: string)
    requires forall i | 0 <= i < |s| :: !IsDigit(s[i])
    ensures First20Year(s) == None
    decreases |s|
  {
    if |s| >= 4 {
      assert !IsDigit(s[2]);
      First20YearNeedsDigit(s[1..]);
    }
  }

  lemma FourDigits(t: string)
    requires |t| == 4 && AllDigits(t)
    ensures DigitsValue(t) == ((DigitVal(t[0]) * 10 + DigitVal(t[1])) * 10 + DigitVal(t[2])) * 10 + DigitVal(t[3])
  {
    var t3 := t[..3];
    var t2 := t3[..2];
    var t1 := t2[..1];
    assert t[..|t| - 1] == t3 && t3[..|t3| - 1] == t2 && t2[..|t2| - 1] == t1 && t1[..0] == [];
    assert DigitsValue(t1) == DigitVal(t[0]);
    assert DigitsValue(t2) == DigitVal(t[0]) * 10 + DigitVal(t[1]);
    assert DigitsValue(t3) == DigitsValue(t2) * 10 + DigitVal(t[2]);
    assert DigitsValue(t) == DigitsValue(t3) * 10 + DigitVal(t[3]);
  }

  /** The four digits of a year in 1000..9999. */
  lemma YearDigits(y: nat)
    requires 1000 <= y <= 9999
    ensures NatToString(y) == [DigitChar(y / 1000), DigitChar(y / 100 % 10), DigitChar(y / 10 % 10), DigitChar(y % 10)]
  {
    assert (y / 10) / 10 == y / 100 && (y / 100) / 10 == y / 1000;
    assert (y / 10) % 10 == y / 10 % 10 && (y / 100) % 10 == y / 100 % 10;
    assert NatToString(y / 1000) == [DigitChar(y / 1000)];
    assert NatToString(y / 100) == [DigitChar(y / 1000), DigitChar(y / 100 % 10)];
    assert NatToString(y / 10) == [DigitChar(y / 1000), DigitChar(y / 100 % 10), DigitChar(y / 10 % 10)];
  }

  /** str(y) reads back through the year scans for every year of this century. */
  lemma YearScansOfYear(y: nat)
    requires 2000 <= y <= 2099
    ensures First20Year(NatToString(y)) == Some(y)
    ensures First19Or20Year(NatToString(y)) == Some(y)
  {
    YearDigits(y);
    var s := NatToString(y);
    assert y / 1000 == 2 && y / 100 % 10 == 0;
    assert s[..4] == s;
    assert YearAt(s, 0, "20");
  }
}
