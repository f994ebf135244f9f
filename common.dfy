/**
 * Shared vocabulary of the harness model: an optional value and the handful of
 * Python string operations the pipeline relies on (`str.lower()` restricted to
 * ASCII, the `in` substring test, `find`/`rfind` of one character,
 * `replace(c, "")`, `strip()`, and `str(n)` for turn numbers).
 */
module Common {

  datatype Option<T> = None | Some(value: T)

  predicate IsUpper(c: char) { 'A' <= c <= 'Z' }

  predicate IsDigit(c: char) { '0' <= c <= '9' }

  /** Python's whitespace class (`str.isspace`, and `\s` in a `str` pattern). */
  predicate IsSpace(c: char) {
    var n := c as int;
    (9 <= n <= 13) || (28 <= n <= 32) || n == 0x85 || n == 0xA0 || n == 0x1680
    || (0x2000 <= n <= 0x200A) || n == 0x2028 || n == 0x2029 || n == 0x202F
    || n == 0x205F || n == 0x3000
  }

  /** ASCII lowercasing of one character. */
  function Lower(c: char): (r: char)
    ensures !IsUpper(r)
    ensures IsUpper(c) ==> r == "abcdefghijklmnopqrstuvwxyz"[c as int - 'A' as int]
    ensures !IsUpper(c) ==> r == c
  {
    if IsUpper(c) then (c as int + 32) as char else c
  }

  /** `s.lower()`, character by character. */
  function LowerStr(s: string): (r: string)
    ensures |r| == |s|
    ensures forall i :: 0 <= i < |s| ==> r[i] == Lower(s[i])
  {
    seq(|s|, i requires 0 <= i < |s| => Lower(s[i]))
  }

  predicate AllDigits(s: string) {
    forall k :: 0 <= k < |s| ==> IsDigit(s[k])
  }

  predicate NoUpper(s: string) {
    forall i :: 0 <= i < |s| ==> !IsUpper(s[i])
  }

  /** Lowercasing is the identity on text without capitals, hence idempotent. */
  lemma LowerStrOfLowercase(s: string)
    requires NoUpper(s)
    ensures LowerStr(s) == s
  {
  }

  lemma LowerStrIdempotent(s: string)
    ensures LowerStr(LowerStr(s)) == LowerStr(s)
  {
    LowerStrOfLowercase(LowerStr(s));
  }

  /** Python's `needle in hay` on strings: a scan from the left. */
  predicate Contains(hay: string, needle: string)
    ensures Contains(hay, needle) ==> |needle| <= |hay|
    decreases |hay|
  {
    (|needle| <= |hay| && hay[..|needle|] == needle)
    || (|hay| > 0 && Contains(hay[1..], needle))
  }

  /** The reference meaning of `in`: needle occurs at some position of hay. */
  ghost predicate OccursAt(hay: string, needle: string, i: int) {
    0 <= i && i + |needle| <= |hay| && hay[i..i + |needle|] == needle
  }

  lemma {:induction false} ContainsIffOccurs(hay: string, needle: string)
    ensures Contains(hay, needle) <==> exists i :: OccursAt(hay, needle, i)
    decreases |hay|
  {
    if |needle| <= |hay| && hay[..|needle|] == needle {
      assert OccursAt(hay, needle, 0);
    } else if |hay| > 0 {
      ContainsIffOccurs(hay[1..], needle);
      if Contains(hay[1..], needle) {
        var i :| OccursAt(hay[1..], needle, i);
        assert hay[i + 1..i + 1 + |needle|] == hay[1..][i..i + |needle|];
        assert OccursAt(hay, needle, i + 1);
      }
      if exists i :: OccursAt(hay, needle, i) {
        var i :| OccursAt(hay, needle, i);
        assert i != 0;
        assert hay[1..][i - 1..i - 1 + |needle|] == hay[i..i + |needle|];
        assert OccursAt(hay[1..], needle, i - 1);
      }
    } else {
      assert forall i :: !OccursAt(hay, needle, i);
    }
  }

  /** A string is found inside any concatenation that has it as a middle part. */
  lemma ContainsMiddle(a: string, x: string, b: string)
    ensures Contains(a + x + b, x)
  {
    assert (a + x + b)[|a|..|a| + |x|] == x;
    assert OccursAt(a + x + b, x, |a|);
    ContainsIffOccurs(a + x + b, x);
  }

  /** A string is found in any text it starts. */
  lemma ContainsAtStart(w: string, rest: string)
    ensures Contains(w + rest, w)
  {
    assert w + rest == [] + w + rest;
    ContainsMiddle([], w, rest);
  }

  /** A needle holding a character the haystack lacks is never found. */
  lemma {:induction false} NotContainsMissingChar(hay: string, needle: string, c: char)
    requires c in needle && c !in hay
    ensures !Contains(hay, needle)
    decreases |hay|
  {
    if |needle| <= |hay| {
      assert forall x :: x in hay[..|needle|] ==> x in hay;
      assert c !in hay[..|needle|];
    }
    if |hay| > 0 {
      assert forall x :: x in hay[1..] ==> x in hay;
      NotContainsMissingChar(hay[1..], needle, c);
    }
  }

  /** `s.find(c)`: the first index holding c, or -1 when there is none. */
  function Find(s: string, c: char): (r: int)
    ensures -1 <= r < |s|
    ensures r == -1 <==> c !in s
    ensures r >= 0 ==> s[r] == c && c !in s[..r]
  {
    if |s| == 0 then -1
    else if s[0] == c then 0
    else
      var k := Find(s[1..], c);
      if k == -1 then -1
      else
        assert s[..k + 1] == [s[0]] + s[1..][..k];
        k + 1
  }

  /** `s.rfind(c)`: the last index holding c, or -1 when there is none. */
  function RFind(s: string, c: char): (r: int)
    ensures -1 <= r < |s|
    ensures r == -1 <==> c !in s
    ensures r >= 0 ==> s[r] == c && c !in s[r + 1..]
  {
    if |s| == 0 then -1
    else if s[|s| - 1] == c then |s| - 1
    else
      var k := RFind(s[..|s| - 1], c);
      assert s == s[..|s| - 1] + [s[|s| - 1]];
      k
  }

  /** find gives an index no later than any occurrence. */
  lemma {:induction false} FindFirst(s: string, c: char, k: int)
    requires 0 <= k < |s| && s[k] == c
    ensures 0 <= Find(s, c) <= k
    decreases |s|
  {
    if s[0] != c {
      FindFirst(s[1..], c, k - 1);
    }
  }

  /** rfind gives an index no earlier than any occurrence. */
  lemma {:induction false} RFindLast(s: string, c: char, k: int)
    requires 0 <= k < |s|
    ensures s[k] == c ==> k <= RFind(s, c)
    decreases |s|
  {
    if s[|s| - 1] != c && k < |s| - 1 {
      RFindLast(s[..|s| - 1], c, k);
    }
  }

  /** `s.replace(c, "")` for a one-character c: c is dropped, every other
      character is kept in order. */
  function RemoveAll(s: string, c: char): (r: string)
    ensures c !in r
    ensures |r| <= |s|
  {
    if |s| == 0 then ""
    else (if s[0] == c then "" else [s[0]]) + RemoveAll(s[1..], c)
  }

  /** Exactly the characters of s other than c remain. */
  lemma {:induction false} RemoveAllChars(s: string, c: char)
    ensures forall x :: x in RemoveAll(s, c) <==> x in s && x != c
  {
    if |s| > 0 {
      RemoveAllChars(s[1..], c);
      assert s == [s[0]] + s[1..];
    }
  }

  lemma {:induction false} RemoveAllAbsent(s: string, c: char)
    requires c !in s
    ensures RemoveAll(s, c) == s
  {
    if |s| > 0 {
      RemoveAllAbsent(s[1..], c);
      assert s == [s[0]] + s[1..];
    }
  }

  /** Removal works piece by piece, so the kept characters keep their order. */
  lemma {:induction false} RemoveAllConcat(a: string, b: string, c: char)
    ensures RemoveAll(a + b, c) == RemoveAll(a, c) + RemoveAll(b, c)
    decreases |a|
  {
    if |a| == 0 {
      assert a + b == b;
    } else {
      assert (a + b)[0] == a[0];
      assert (a + b)[1..] == a[1..] + b;
      RemoveAllConcat(a[1..], b, c);
    }
  }

  /** `s.lstrip()`: leading whitespace removed. */
  function StripStart(s: string): (r: string)
    ensures |r| <= |s| && r == s[|s| - |r|..]
    ensures forall k :: 0 <= k < |s| - |r| ==> IsSpace(s[k])
    ensures r == [] || !IsSpace(r[0])
  {
    if |s| > 0 && IsSpace(s[0]) then StripStart(s[1..]) else s
  }

  /** `s.rstrip()`: trailing whitespace removed. */
  function StripEnd(s: string): (r: string)
    ensures |r| <= |s| && r == s[..|r|]
    ensures forall k :: |r| <= k < |s| ==> IsSpace(s[k])
    ensures r == [] || !IsSpace(r[|r| - 1])
  {
    if |s| > 0 && IsSpace(s[|s| - 1]) then StripEnd(s[..|s| - 1]) else s
  }

  /** Every character of the text is whitespace. */
  predicate AllSpace(t: string) {
    forall k :: 0 <= k < |t| ==> IsSpace(t[k])
  }

  /** `r` is the part of `s` from `a` on that only whitespace surrounds. */
  predicate CutBetweenSpace(s: string, a: int, r: string) {
    0 <= a && a + |r| <= |s| && r == s[a..a + |r|] && AllSpace(s[..a]) && AllSpace(s[a + |r|..])
  }

  /** `s.strip()`: the text between the leading and the trailing
      whitespace. */
  function Strip(s: string): (r: string)
    ensures |r| <= |s|
    ensures r == [] || (!IsSpace(r[0]) && !IsSpace(r[|r| - 1]))
    ensures |s| > 0 && !IsSpace(s[0]) && !IsSpace(s[|s| - 1]) ==> r == s
    ensures CutBetweenSpace(s, |s| - |StripStart(s)|, r)
  {
    var t := StripStart(s);
    var r := StripEnd(t);
    StripParts(s, t, r);
    r
  }

  lemma StripParts(s: string, t: string, r: string)
    requires t == StripStart(s) && r == StripEnd(t)
    ensures CutBetweenSpace(s, |s| - |t|, r)
  {
    CutFromStrips(s, |s| - |t|, t, r);
  }

  lemma CutFromStrips(s: string, a: nat, t: string, r: string)
    requires a <= |s| && t == s[a..] && forall k :: 0 <= k < a ==> IsSpace(s[k])
    requires |r| <= |t| && r == t[..|r|] && forall k :: |r| <= k < |t| ==> IsSpace(t[k])
    ensures CutBetweenSpace(s, a, r)
  {
    forall k | 0 <= k < a
      ensures IsSpace(s[..a][k])
    {
      assert s[..a][k] == s[k];
    }
    var rest := s[a + |r|..];
    forall k | 0 <= k < |rest|
      ensures IsSpace(rest[k])
    {
      assert rest[k] == t[|r| + k];
    }
  }

  function DigitChar(d: nat): (c: char)
    requires d < 10
    ensures IsDigit(c)
  {
    ('0' as int + d) as char
  }

  /** `str(n)` for a natural number: its decimal digits. */
  function NatToString(n: nat): (r: string)
    ensures |r| >= 1
    ensures forall k :: 0 <= k < |r| ==> IsDigit(r[k])
  {
    if n < 10 then [DigitChar(n)] else NatToString(n / 10) + [DigitChar(n % 10)]
  }

  function DigitValue(c: char): nat
    requires IsDigit(c)
  {
    c as int - '0' as int
  }

  /** The number a string of decimal digits denotes. */
  function DecimalValue(s: string): nat
    requires AllDigits(s)
  {
    if |s| == 0 then 0 else DecimalValue(s[..|s| - 1]) * 10 + DigitValue(s[|s| - 1])
  }

  /** `str(n)` denotes n. */
  lemma {:induction false} NatToStringValue(n: nat)
    ensures DecimalValue(NatToString(n)) == n
  {
    var s := NatToString(n);
    if n < 10 {
      assert s[..0] == [];
    } else {
      NatToStringValue(n / 10);
      assert s[..|s| - 1] == NatToString(n / 10);
    }
  }

  /** Distinct numbers get distinct strings. */
  lemma NatToStringInjective(m: nat, n: nat)
    ensures NatToString(m) == NatToString(n) ==> m == n
  {
    NatToStringValue(m);
    NatToStringValue(n);
  }

  /** `d.get(key, default)`. */
  function Get<K, V>(m: map<K, V>, key: K, default: V): V {
    if key in m then m[key] else default
  }
}
