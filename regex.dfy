/**
 * Matchers for the fixed regular expressions that slot extraction uses, with
 * the result Python's `re.search` gives: the leftmost position at which the
 * pattern matches, and there the greedy choice for every quantifier.
 *
 * A pattern here is a sequence of atoms followed by one capturing group that
 * ends the pattern. Each atom is matched greedily and never revisited. For the
 * patterns of this harness that is exactly what a backtracking engine returns:
 * `\s+` is always followed by a letter, a digit or `#`, none of which is
 * whitespace, so giving back a space can never help; `#?` is followed by `\d+`,
 * which cannot start at `#`; and the group ends the pattern, so its first
 * (greedy) way of matching is accepted at once.
 */
module Regex {
  import opened Common

  datatype CharClass = Digit | Space

  predicate InClass(k: CharClass, c: char) {
    match k
    case Digit => IsDigit(c)
    case Space => IsSpace(c)
  }

  /** Length of the longest run of class-k characters from i: what a greedy
      `\d*` or `\s*` consumes there. */
  function Run(k: CharClass, s: string, i: nat): (n: nat)
    requires i <= |s|
    ensures i + n <= |s|
    decreases |s| - i
  {
    if i < |s| && InClass(k, s[i]) then 1 + Run(k, s, i + 1) else 0
  }

  /** The run is made of class-k characters and is maximal: it stops at the
      end of the text or at a character outside the class. */
  lemma {:induction false} RunSpec(k: CharClass, s: string, i: nat)
    requires i <= |s|
    ensures forall j :: i <= j < i + Run(k, s, i) ==> InClass(k, s[j])
    ensures i + Run(k, s, i) == |s| || !InClass(k, s[i + Run(k, s, i)])
    decreases |s| - i
  {
    if i < |s| && InClass(k, s[i]) {
      RunSpec(k, s, i + 1);
    }
  }

  /** A run that reaches the end of the text is the whole rest of it. */
  lemma {:induction false} RunToEnd(k: CharClass, s: string, i: nat)
    requires i <= |s|
    requires forall j :: i <= j < |s| ==> InClass(k, s[j])
    ensures Run(k, s, i) == |s| - i
    decreases |s| - i
  {
    if i < |s| {
      RunToEnd(k, s, i + 1);
    }
  }

  datatype Atom =
    | Word(w: string)        // the literal text w
    | Spaces                 // \s+
    | OptionalHash           // #?
    | Digits                 // \d+
    | FourDigits             // \d{4}
    | Grouped(suffix: bool)  // \d{1,3}(?:,\d{3})* and, when suffix, (?:-\d+)?

  datatype Pattern = Pattern(prefix: seq<Atom>, group: Atom)

  /** The characters an atom can consume. */
  predicate Consumes(a: Atom, c: char) {
    match a
    case Word(w) => c in w
    case Spaces => IsSpace(c)
    case OptionalHash => c == '#'
    case Digits => IsDigit(c)
    case FourDigits => IsDigit(c)
    case Grouped(suffix) => IsDigit(c) || c == ',' || (suffix && c == '-')
  }

  /** A comma group `,\d{3}` starting at k. */
  predicate CommaBlock(s: string, k: nat) {
    k + 4 <= |s| && s[k] == ',' && IsDigit(s[k + 1]) && IsDigit(s[k + 2]) && IsDigit(s[k + 3])
  }

  /** `(?:,\d{3})*`, greedy: end of the last complete comma group from j. */
  function CommaGroups(s: string, j: nat): (e: nat)
    requires j <= |s|
    ensures j <= e <= |s|
    decreases |s| - j
  {
    if CommaBlock(s, j) then CommaGroups(s, j + 4) else j
  }

  /** The greedy repetition takes whole comma groups back to back from j,
      and stops where no further group starts. */
  lemma {:induction false} CommaGroupsSpec(s: string, j: nat)
    requires j <= |s|
    ensures (CommaGroups(s, j) - j) % 4 == 0
    ensures forall k :: j <= k < CommaGroups(s, j) && (k - j) % 4 == 0 ==> CommaBlock(s, k)
    ensures !CommaBlock(s, CommaGroups(s, j))
    decreases |s| - j
  {
    if CommaBlock(s, j) {
      CommaGroupsSpec(s, j + 4);
      forall k | j < k < CommaGroups(s, j) && (k - j) % 4 == 0
        ensures CommaBlock(s, k)
      {
        assert k >= j + 4 && (k - (j + 4)) % 4 == 0;
      }
    }
  }

  /** The comma groups hold only digits and commas. */
  lemma {:induction false} CommaGroupsChars(s: string, j: nat)
    requires j <= |s|
    ensures forall k :: j <= k < CommaGroups(s, j) ==> IsDigit(s[k]) || s[k] == ','
    decreases |s| - j
  {
    if CommaBlock(s, j) {
      CommaGroupsChars(s, j + 4);
    }
  }

  /** `(?:-\d+)?`, greedy. */
  function HyphenSuffix(s: string, j: nat): (e: nat)
    requires j <= |s|
    ensures j <= e <= |s|
  {
    if j < |s| && s[j] == '-' && Run(Digit, s, j + 1) > 0 then j + 1 + Run(Digit, s, j + 1) else j
  }

  /** The optional suffix is taken exactly when a hyphen and a digit start
      at j, and then it runs to the end of the digits. */
  lemma HyphenSuffixSpec(s: string, j: nat)
    requires j <= |s|
    ensures var e := HyphenSuffix(s, j);
            && (e > j <==> j + 1 < |s| && s[j] == '-' && IsDigit(s[j + 1]))
            && (e > j ==> (forall k :: j < k < e ==> IsDigit(s[k])) && (e == |s| || !IsDigit(s[e])))
  {
    if j < |s| {
      RunSpec(Digit, s, j + 1);
    }
  }

  /** The suffix is a hyphen followed by digits. */
  lemma HyphenSuffixChars(s: string, j: nat)
    requires j <= |s|
    ensures forall k :: j <= k < HyphenSuffix(s, j) ==> IsDigit(s[k]) || s[k] == '-'
  {
    if j < |s| {
      RunSpec(Digit, s, j + 1);
    }
  }

  function Min(a: nat, b: nat): nat { if a <= b then a else b }

  /** Where a greedy match of the atom starting at i ends, if it matches. */
  function MatchAtom(a: Atom, s: string, i: nat): (r: Option<nat>)
    requires i <= |s|
    ensures r.Some? ==> i <= r.value <= |s|
    ensures r.Some? && (a.Digits? || a.FourDigits? || a.Grouped?) ==> i < r.value && IsDigit(s[i])
  {
    match a
    case Word(w) =>
      if i + |w| <= |s| && s[i..i + |w|] == w then Some(i + |w|) else None
    case Spaces =>
      var n := Run(Space, s, i);
      if n > 0 then Some(i + n) else None
    case OptionalHash =>
      if i < |s| && s[i] == '#' then Some(i + 1) else Some(i)
    case Digits =>
      var n := Run(Digit, s, i);
      if n > 0 then Some(i + n) else None
    case FourDigits =>
      if i + 4 <= |s| && IsDigit(s[i]) && IsDigit(s[i + 1]) && IsDigit(s[i + 2]) && IsDigit(s[i + 3])
      then Some(i + 4)
      else None
    case Grouped(suffix) =>
      var n := Run(Digit, s, i);
      if n == 0 then None
      else
        var e := CommaGroups(s, i + Min(n, 3));
        Some(if suffix then HyphenSuffix(s, e) else e)
  }

  /** Every character a matched atom spans is one the atom consumes. */
  lemma AtomConsumes(a: Atom, s: string, i: nat)
    requires i <= |s| && MatchAtom(a, s, i).Some?
    ensures forall k :: i <= k < MatchAtom(a, s, i).value ==> Consumes(a, s[k])
  {
    match a
    case Word(w) =>
      assert forall k :: i <= k < i + |w| ==> s[k] == w[k - i];
    case Spaces =>
      RunSpec(Space, s, i);
    case OptionalHash =>
    case Digits =>
      RunSpec(Digit, s, i);
    case FourDigits =>
    case Grouped(suffix) =>
      var n := Run(Digit, s, i);
      RunSpec(Digit, s, i);
      var e := CommaGroups(s, i + Min(n, 3));
      CommaGroupsChars(s, i + Min(n, 3));
      HyphenSuffixChars(s, e);
  }

  /** Where four digits start, whatever follows them, the group
      `\d{1,3}(?:,\d{3})*`, with or without `(?:-\d+)?`, takes three digits
      and stops: the fourth digit is neither a comma nor a hyphen. */
  lemma GroupedOnDigits(suffix: bool, s: string, i: nat)
    requires i + 4 <= |s|
    requires IsDigit(s[i]) && IsDigit(s[i + 1]) && IsDigit(s[i + 2]) && IsDigit(s[i + 3])
    ensures MatchAtom(Grouped(suffix), s, i) == Some(i + 3)
  {
    assert Run(Digit, s, i + 3) >= 1;
    assert Run(Digit, s, i + 2) >= 2;
    assert Run(Digit, s, i + 1) >= 3;
    assert Run(Digit, s, i) >= 4;
    assert CommaGroups(s, i + 3) == i + 3;
    assert HyphenSuffix(s, i + 3) == i + 3;
  }

  /** Matches the atoms one after the other from i; the end position. */
  function MatchSeq(atoms: seq<Atom>, s: string, i: nat): (r: Option<nat>)
    requires i <= |s|
    ensures r.Some? ==> i <= r.value <= |s|
    decreases |atoms|
  {
    if |atoms| == 0 then Some(i)
    else
      match MatchAtom(atoms[0], s, i)
      case None => None
      case Some(j) => MatchSeq(atoms[1..], s, j)
  }

  /** A position moved by d, when there is one. */
  function Shifted(r: Option<nat>, d: nat): Option<nat> {
    match r
    case None => None
    case Some(e) => Some(d + e)
  }

  /** Matching only looks forward: text placed before the match position
      changes nothing but the positions. */
  lemma {:induction false} RunShift(k: CharClass, p: string, t: string, i: nat)
    requires i <= |t|
    ensures Run(k, p + t, |p| + i) == Run(k, t, i)
    decreases |t| - i
  {
    if i < |t| {
      assert (p + t)[|p| + i] == t[i];
      RunShift(k, p, t, i + 1);
    }
  }

  lemma {:induction false} CommaGroupsShift(p: string, t: string, j: nat)
    requires j <= |t|
    ensures CommaGroups(p + t, |p| + j) == |p| + CommaGroups(t, j)
    decreases |t| - j
  {
    if j + 4 <= |t| {
      assert (p + t)[|p| + j] == t[j] && (p + t)[|p| + j + 1] == t[j + 1];
      assert (p + t)[|p| + j + 2] == t[j + 2] && (p + t)[|p| + j + 3] == t[j + 3];
      CommaGroupsShift(p, t, j + 4);
    }
  }

  lemma HyphenSuffixShift(p: string, t: string, j: nat)
    requires j <= |t|
    ensures HyphenSuffix(p + t, |p| + j) == |p| + HyphenSuffix(t, j)
  {
    if j < |t| {
      assert (p + t)[|p| + j] == t[j];
      RunShift(Digit, p, t, j + 1);
    }
  }

  lemma WordShift(w: string, p: string, t: string, i: nat)
    requires i <= |t|
    ensures MatchAtom(Word(w), p + t, |p| + i) == Shifted(MatchAtom(Word(w), t, i), |p|)
  {
    if i + |w| <= |t| {
      assert (p + t)[|p| + i..|p| + i + |w|] == t[i..i + |w|];
    }
  }

  lemma FourDigitsShift(p: string, t: string, i: nat)
    requires i <= |t|
    ensures MatchAtom(FourDigits, p + t, |p| + i) == Shifted(MatchAtom(FourDigits, t, i), |p|)
  {
    if i + 4 <= |t| {
      assert (p + t)[|p| + i] == t[i] && (p + t)[|p| + i + 1] == t[i + 1];
      assert (p + t)[|p| + i + 2] == t[i + 2] && (p + t)[|p| + i + 3] == t[i + 3];
    }
  }

  lemma GroupedShift(suffix: bool, p: string, t: string, i: nat)
    requires i <= |t|
    ensures MatchAtom(Grouped(suffix), p + t, |p| + i) == Shifted(MatchAtom(Grouped(suffix), t, i), |p|)
  {
    RunShift(Digit, p, t, i);
    var n := Run(Digit, t, i);
    if n > 0 {
      CommaGroupsShift(p, t, i + Min(n, 3));
      HyphenSuffixShift(p, t, CommaGroups(t, i + Min(n, 3)));
    }
  }

  lemma MatchAtomShift(a: Atom, p: string, t: string, i: nat)
    requires i <= |t|
    ensures MatchAtom(a, p + t, |p| + i) == Shifted(MatchAtom(a, t, i), |p|)
  {
    match a
    case Word(w) => WordShift(w, p, t, i);
    case Spaces => RunShift(Space, p, t, i);
    case OptionalHash =>
      if i < |t| {
        assert (p + t)[|p| + i] == t[i];
      }
    case Digits => RunShift(Digit, p, t, i);
    case FourDigits => FourDigitsShift(p, t, i);
    case Grouped(suffix) => GroupedShift(suffix, p, t, i);
  }

  lemma {:induction false} MatchSeqShift(atoms: seq<Atom>, p: string, t: string, i: nat)
    requires i <= |t|
    ensures MatchSeq(atoms, p + t, |p| + i) == Shifted(MatchSeq(atoms, t, i), |p|)
    decreases |atoms|
  {
    if |atoms| > 0 {
      MatchAtomShift(atoms[0], p, t, i);
      match MatchAtom(atoms[0], t, i)
      case None =>
      case Some(j) =>
        MatchSeqShift(atoms[1..], p, t, j);
    }
  }

  /** The text of the capturing group when the pattern matches at i. */
  function MatchAt(p: Pattern, s: string, i: nat): (r: Option<string>)
    requires i <= |s|
    ensures r.Some? ==> |r.value| <= |s| - i
  {
    match MatchSeq(p.prefix, s, i)
    case None => None
    case Some(j) =>
      match MatchAtom(p.group, s, j)
      case None => None
      case Some(e) => Some(s[j..e])
  }

  /** A captured group is made only of characters its atom consumes, and a
      digit group starts with a digit. */
  lemma CaptureChars(p: Pattern, s: string, i: nat)
    requires i <= |s| && MatchAt(p, s, i).Some?
    ensures forall c :: c in MatchAt(p, s, i).value ==> Consumes(p.group, c)
    ensures p.group.Digits? || p.group.FourDigits? || p.group.Grouped? ==>
              |MatchAt(p, s, i).value| > 0 && IsDigit(MatchAt(p, s, i).value[0])
  {
    var j := MatchSeq(p.prefix, s, i).value;
    var e := MatchAtom(p.group, s, j).value;
    AtomConsumes(p.group, s, j);
    assert MatchAt(p, s, i).value == s[j..e];
    forall c | c in s[j..e] ensures Consumes(p.group, c) {
      var k :| 0 <= k < e - j && s[j..e][k] == c;
      assert s[j + k] == c;
    }
  }

  /** A match inside t is the same match inside any text that ends with t. */
  lemma MatchAtShift(pat: Pattern, p: string, t: string, i: nat)
    requires i <= |t|
    ensures MatchAt(pat, p + t, |p| + i) == MatchAt(pat, t, i)
  {
    MatchSeqShift(pat.prefix, p, t, i);
    match MatchSeq(pat.prefix, t, i)
    case None =>
    case Some(j) =>
      MatchAtomShift(pat.group, p, t, j);
      match MatchAtom(pat.group, t, j)
      case None =>
      case Some(e) =>
        assert (p + t)[|p| + j..|p| + e] == t[j..e];
  }

  /** The leftmost position from i at which the pattern matches. */
  function LeftmostFrom(p: Pattern, s: string, i: nat): (r: Option<nat>)
    requires i <= |s|
    ensures r.Some? ==> i <= r.value <= |s| && MatchAt(p, s, r.value).Some?
    decreases |s| - i
  {
    if MatchAt(p, s, i).Some? then Some(i)
    else if i == |s| then None
    else LeftmostFrom(p, s, i + 1)
  }

  /** No position before the one found matches, and when none is found no
      position from i matches at all. */
  lemma {:induction false} LeftmostFromSpec(p: Pattern, s: string, i: nat)
    requires i <= |s|
    ensures LeftmostFrom(p, s, i).Some? ==>
              forall j: nat :: i <= j < LeftmostFrom(p, s, i).value ==> MatchAt(p, s, j).None?
    ensures LeftmostFrom(p, s, i).None? ==> forall j: nat :: i <= j <= |s| ==> MatchAt(p, s, j).None?
    decreases |s| - i
  {
    if MatchAt(p, s, i).None? && i < |s| {
      LeftmostFromSpec(p, s, i + 1);
    }
  }

  /** `re.search(p, s).group(1)`, or None when `re.search` finds no match. */
  function Search(p: Pattern, s: string): (r: Option<string>)
    ensures r.Some? ==> |r.value| <= |s|
  {
    match LeftmostFrom(p, s, 0)
    case None => None
    case Some(j) => MatchAt(p, s, j)
  }

  /** Search finds a match exactly when the pattern matches at some position,
      and then it returns the group of the leftmost such position. */
  lemma SearchLeftmost(p: Pattern, s: string)
    ensures Search(p, s).None? <==> forall j: nat :: j <= |s| ==> MatchAt(p, s, j).None?
    ensures Search(p, s).Some? ==>
              exists j: nat :: j <= |s| && MatchAt(p, s, j) == Search(p, s)
                               && forall k: nat :: k < j ==> MatchAt(p, s, k).None?
  {
    LeftmostFromSpec(p, s, 0);
  }

  /** A match at the very start is the one `re.search` returns. */
  lemma SearchAtStart(p: Pattern, s: string)
    requires MatchAt(p, s, 0).Some?
    ensures Search(p, s) == MatchAt(p, s, 0)
  {
  }

  /** A match at i with none before it is the one `re.search` returns. */
  lemma SearchFirstMatch(p: Pattern, s: string, i: nat)
    requires i <= |s| && MatchAt(p, s, i).Some?
    requires forall j: nat :: j < i ==> MatchAt(p, s, j).None?
    ensures Search(p, s) == MatchAt(p, s, i)
  {
    MatchImpliesLeftmost(p, s, 0, i);
    LeftmostFromSpec(p, s, 0);
    assert LeftmostFrom(p, s, 0).value == i;
  }

  /** A match at any position means `re.search` succeeds. */
  lemma MatchImpliesSearch(p: Pattern, s: string, j: nat)
    requires j <= |s| && MatchAt(p, s, j).Some?
    ensures Search(p, s).Some?
  {
    MatchImpliesLeftmost(p, s, 0, j);
  }

  lemma {:induction false} MatchImpliesLeftmost(p: Pattern, s: string, i: nat, j: nat)
    requires i <= j <= |s| && MatchAt(p, s, j).Some?
    ensures LeftmostFrom(p, s, i).Some?
    decreases j - i
  {
    if MatchAt(p, s, i).None? {
      MatchImpliesLeftmost(p, s, i + 1, j);
    }
  }

  /** What `re.search` captures is made only of characters the group's atom
      consumes, and a digit group starts with a digit. */
  lemma SearchCapture(p: Pattern, s: string)
    requires Search(p, s).Some?
    ensures forall c :: c in Search(p, s).value ==> Consumes(p.group, c)
    ensures p.group.Digits? || p.group.FourDigits? || p.group.Grouped? ==>
              |Search(p, s).value| > 0 && IsDigit(Search(p, s).value[0])
  {
    var j := LeftmostFrom(p, s, 0).value;
    CaptureChars(p, s, j);
  }
}
