/** The handful of string operations the bot uses: `str.lower()` (on ASCII
    letters), `str.strip()`, the `in` substring test, `str.startswith`,
    `str.replace`, and decimal digits for `int(...)` and `f"{n}"`. */
module Text {

  // ---------------------------------------------------------------------
  // Lower case
  // ---------------------------------------------------------------------

  function LowerChar(c: char): char {
    if 'A' <= c <= 'Z' then (c as int + 32) as char else c
  }

  predicate IsLowered(s: string) {
    forall i :: 0 <= i < |s| ==> LowerChar(s[i]) == s[i]
  }

  /** `s.lower()`, restricted to ASCII letters. */
  function Lower(s: string): (r: string)
    ensures |r| == |s|
    ensures forall i :: 0 <= i < |s| ==> r[i] == LowerChar(s[i])
    ensures IsLowered(r)
  {
    if s == [] then [] else [LowerChar(s[0])] + Lower(s[1..])
  }

  lemma LoweredIsFixpoint(s: string)
    requires IsLowered(s)
    ensures Lower(s) == s
  {
  }

  lemma LowerAppend(a: string, b: string)
    ensures Lower(a + b) == Lower(a) + Lower(b)
  {
  }

  // ---------------------------------------------------------------------
  // Whitespace and strip()
  // ---------------------------------------------------------------------

  /** The code points Python's `str.strip()` removes (those `str.isspace()` accepts). */
  predicate IsSpace(c: char) {
    var n := c as int;
    || 9 <= n <= 13
    || 28 <= n <= 32
    || n == 0x85 || n == 0xA0 || n == 0x1680
    || 0x2000 <= n <= 0x200A
    || n == 0x2028 || n == 0x2029 || n == 0x202F || n == 0x205F || n == 0x3000
  }

  /** Every character of `s` from `lo` (inclusive) to `hi` (exclusive) is whitespace. */
  predicate SpaceBetween(s: string, lo: int, hi: int)
    requires 0 <= lo && hi <= |s|
  {
    forall k :: lo <= k < hi ==> IsSpace(s[k])
  }

  predicate AllSpace(s: string) {
    SpaceBetween(s, 0, |s|)
  }

  /** No whitespace at either end. */
  predicate IsStripped(s: string) {
    s == [] || (!IsSpace(s[0]) && !IsSpace(s[|s| - 1]))
  }

  lemma LowerCharKeepsSpace(c: char)
    ensures IsSpace(LowerChar(c)) <==> IsSpace(c)
  {
  }

  /** Where the text left by strip() starts: the first non-space position at or after `i`. */
  function SkipSpaces(s: string, i: nat): (k: nat)
    requires i <= |s|
    ensures i <= k <= |s| && SpaceBetween(s, i, k)
    ensures k == |s| || !IsSpace(s[k])
    decreases |s| - i
  {
    if i < |s| && IsSpace(s[i]) then SkipSpaces(s, i + 1) else i
  }

  /** Where the text left by strip() ends: the last non-space position before `j`, not below `lo`. */
  function SkipSpacesBack(s: string, lo: nat, j: nat): (k: nat)
    requires lo <= j <= |s|
    ensures lo <= k <= j && SpaceBetween(s, k, j)
    ensures k == lo || !IsSpace(s[k - 1])
    decreases j
  {
    if lo < j && IsSpace(s[j - 1]) then SkipSpacesBack(s, lo, j - 1) else j
  }

  function StripStart(s: string): (i: nat)
    ensures i <= |s|
  {
    SkipSpaces(s, 0)
  }

  /** `s.strip()`: the part of `s` left once whitespace is removed at both ends. */
  function Strip(s: string): (r: string)
    ensures IsStripped(r)
    ensures var i := StripStart(s);
            i + |r| <= |s| && r == s[i..i + |r|] && SpaceBetween(s, 0, i) && SpaceBetween(s, i + |r|, |s|)
    ensures r == [] <==> AllSpace(s)
  {
    var i := SkipSpaces(s, 0);
    var j := SkipSpacesBack(s, i, |s|);
    assert i < |s| ==> i < j;
    s[i..j]
  }

  /** Strip is determined by its characterisation: any slice that is framed by
      whitespace and has no whitespace at its ends is the result. */
  lemma StripUnique(s: string, i: nat, j: nat)
    requires i <= j <= |s|
    requires SpaceBetween(s, 0, i) && SpaceBetween(s, j, |s|)
    requires IsStripped(s[i..j])
    ensures Strip(s) == s[i..j]
  {
    var r := Strip(s);
    var i' := StripStart(s);
    var j' := i' + |r|;
    if i < j {
      assert s[i] == s[i..j][0] && s[j - 1] == s[i..j][j - i - 1];
      assert !AllSpace(s) by { assert !IsSpace(s[i]); }
      assert r[0] == s[i'] && r[|r| - 1] == s[j' - 1];
      assert i' == i;
      assert j' == j;
    } else {
      assert AllSpace(s) by {
        forall k | 0 <= k < |s| ensures IsSpace(s[k]) {
          if k < i { assert SpaceBetween(s, 0, i); } else { assert SpaceBetween(s, j, |s|); }
        }
      }
    }
  }

  lemma AllSpaceAppend(x: string, y: string)
    ensures AllSpace(x + y) <==> AllSpace(x) && AllSpace(y)
  {
    var xy := x + y;
    assert forall k :: 0 <= k < |x| ==> xy[k] == x[k];
    assert forall k :: 0 <= k < |y| ==> xy[|x| + k] == y[k];
    if AllSpace(x) && AllSpace(y) {
      forall k | 0 <= k < |xy| ensures IsSpace(xy[k]) {
        if k < |x| { assert xy[k] == x[k]; } else { assert xy[k] == y[k - |x|]; }
      }
    }
  }

  lemma AllSpaceLower(x: string)
    ensures AllSpace(Lower(x)) <==> AllSpace(x)
  {
    forall k | 0 <= k < |x| ensures IsSpace(Lower(x)[k]) <==> IsSpace(x[k]) { LowerCharKeepsSpace(x[k]); }
  }

  /** Whitespace put around a text does not survive strip(). */
  lemma StripSurrounded(a: string, s: string, b: string)
    requires AllSpace(a) && AllSpace(b)
    ensures Strip(a + s + b) == Strip(s)
  {
    var r := Strip(s);
    var i := StripStart(s);
    var whole := a + s + b;
    var lo, hi := |a| + i, |a| + i + |r|;
    assert whole[lo..hi] == r;
    assert SpaceBetween(whole, 0, lo) by {
      forall k | 0 <= k < lo ensures IsSpace(whole[k]) {
        if k < |a| { assert whole[k] == a[k]; } else { assert whole[k] == s[k - |a|]; }
      }
    }
    assert SpaceBetween(whole, hi, |whole|) by {
      forall k | hi <= k < |whole| ensures IsSpace(whole[k]) {
        if k < |a| + |s| { assert whole[k] == s[k - |a|]; } else { assert whole[k] == b[k - |a| - |s|]; }
      }
    }
    StripUnique(whole, lo, hi);
  }

  lemma StrippedIsFixpoint(s: string)
    requires IsStripped(s)
    ensures Strip(s) == s
  {
    assert s[0..|s|] == s;
    StripUnique(s, 0, |s|);
  }

  lemma StripOfLowered(s: string)
    requires IsLowered(s)
    ensures IsLowered(Strip(s))
  {
    var r := Strip(s);
    var i := StripStart(s);
    forall k | 0 <= k < |r| ensures LowerChar(r[k]) == r[k] {
      assert r[k] == s[i + k];
    }
  }

  lemma {:induction false} LowerKeepsSpaceBetween(s: string, lo: int, hi: int)
    requires 0 <= lo && hi <= |s| && SpaceBetween(s, lo, hi)
    ensures SpaceBetween(Lower(s), lo, hi)
  {
    forall k | lo <= k < hi ensures IsSpace(Lower(s)[k]) { LowerCharKeepsSpace(s[k]); }
  }

  lemma {:induction false} LowerKeepsStripped(r: string)
    requires IsStripped(r)
    ensures IsStripped(Lower(r))
  {
    if r != [] {
      LowerCharKeepsSpace(r[0]);
      LowerCharKeepsSpace(r[|r| - 1]);
    }
  }

  lemma {:induction false} LowerSlice(s: string, i: int, j: int)
    requires 0 <= i <= j <= |s|
    ensures Lower(s[i..j]) == Lower(s)[i..j]
  {
    assert forall k :: 0 <= k < j - i ==> Lower(s[i..j])[k] == Lower(s)[i..j][k];
  }

  /** Lowering and stripping commute: case folding never turns a letter into a space. */
  lemma {:induction false} LowerStripCommute(s: string)
    ensures Lower(Strip(s)) == Strip(Lower(s))
  {
    var r := Strip(s);
    var i := StripStart(s);
    var j := i + |r|;
    LowerKeepsSpaceBetween(s, 0, i);
    LowerKeepsSpaceBetween(s, j, |s|);
    LowerKeepsStripped(r);
    assert r == s[i..j];
    LowerSlice(s, i, j);
    StripUnique(Lower(s), i, j);
  }

  // ---------------------------------------------------------------------
  // Prefix and substring tests
  // ---------------------------------------------------------------------

  /** `s.startswith(p)`. */
  predicate StartsWith(s: string, p: string) {
    |p| <= |s| && s[..|p|] == p
  }

  /** A text glued after a prefix starts with it, and is what follows it. */
  lemma PrefixAndRest(p: string, q: string)
    ensures StartsWith(p + q, p) && (p + q)[|p|..] == q
  {
    assert (p + q)[..|p|] == p;
  }

  /** Python's `sub in s`, scanning from the left. */
  predicate Contains(s: string, sub: string)
    decreases |s|
  {
    StartsWith(s, sub) || (s != [] && Contains(s[1..], sub))
  }

  predicate OccursAt(s: string, sub: string, i: int) {
    0 <= i && i + |sub| <= |s| && s[i..i + |sub|] == sub
  }

  lemma {:induction false} OccursImpliesContains(s: string, sub: string, i: int)
    requires OccursAt(s, sub, i)
    ensures Contains(s, sub)
    decreases i
  {
    if i > 0 {
      assert s[1..][i - 1..i - 1 + |sub|] == s[i..i + |sub|];
      OccursImpliesContains(s[1..], sub, i - 1);
    }
  }

  lemma {:induction false} ContainsImpliesOccurs(s: string, sub: string) returns (i: int)
    requires Contains(s, sub)
    ensures OccursAt(s, sub, i)
    decreases |s|
  {
    if StartsWith(s, sub) {
      i := 0;
    } else {
      var j := ContainsImpliesOccurs(s[1..], sub);
      assert s[j + 1..j + 1 + |sub|] == s[1..][j..j + |sub|];
      i := j + 1;
    }
  }

  /** The scanning definition agrees with "occurs at some position", both ways. */
  lemma ContainsIffOccurs(s: string, sub: string)
    ensures Contains(s, sub) <==> exists i :: OccursAt(s, sub, i)
  {
    if Contains(s, sub) {
      var i := ContainsImpliesOccurs(s, sub);
    }
    if exists i :: OccursAt(s, sub, i) {
      var i :| OccursAt(s, sub, i);
      OccursImpliesContains(s, sub, i);
    }
  }

  lemma ContainsMiddle(a: string, sub: string, b: string)
    ensures Contains(a + sub + b, sub)
  {
    var s := a + sub + b;
    assert s[|a|..|a| + |sub|] == sub;
    assert OccursAt(s, sub, |a|);
    ContainsIffOccurs(s, sub);
  }

  /** Whatever occurs in a part occurs in the whole. */
  lemma ContainsInParts(a: string, b: string, sub: string)
    ensures Contains(a, sub) ==> Contains(a + b, sub)
    ensures Contains(b, sub) ==> Contains(a + b, sub)
  {
    var s := a + b;
    ContainsIffOccurs(a, sub);
    ContainsIffOccurs(b, sub);
    if Contains(a, sub) {
      var i :| OccursAt(a, sub, i);
      assert s[i..i + |sub|] == a[i..i + |sub|];
      OccursImpliesContains(s, sub, i);
    }
    if Contains(b, sub) {
      var i :| OccursAt(b, sub, i);
      assert s[|a| + i..|a| + i + |sub|] == b[i..i + |sub|];
      OccursImpliesContains(s, sub, |a| + i);
    }
  }

  // ---------------------------------------------------------------------
  // replace()
  // ---------------------------------------------------------------------

  /** `s.replace(pat, rep)` for a non-empty pattern: left to right, without overlaps. */
  function ReplaceAll(s: string, pat: string, rep: string): (r: string)
    requires pat != []
    ensures !Contains(s, pat) ==> r == s
    ensures rep == [] ==> |r| <= |s|
    decreases |s|
  {
    if StartsWith(s, pat) then rep + ReplaceAll(s[|pat|..], pat, rep)
    else if s == [] then []
    else [s[0]] + ReplaceAll(s[1..], pat, rep)
  }

  /** One step of `replace()` where the pattern does not start. */
  lemma ReplaceAllStep(s: string, pat: string, rep: string)
    requires pat != [] && s != [] && !OccursAt(s, pat, 0)
    ensures ReplaceAll(s, pat, rep) == [s[0]] + ReplaceAll(s[1..], pat, rep)
  {
    if |pat| <= |s| { assert s[..|pat|] == s[0..|pat|]; }
  }

  lemma OccursInTail(s: string, pat: string, k: int)
    requires s != [] && !OccursAt(s, pat, k + 1)
    ensures !OccursAt(s[1..], pat, k)
  {
    if 0 <= k && k + |pat| <= |s| - 1 {
      assert s[1..][k..k + |pat|] == s[k + 1..k + 1 + |pat|];
    }
  }

  lemma SplitAfterHead(s: string, n: nat)
    requires 0 < n <= |s|
    ensures s[1..][n - 1..] == s[n..] && s[..n] == [s[0]] + s[1..][..n - 1]
  {
  }

  /** `replace()` keeps a prefix in which no occurrence of the pattern starts. */
  lemma {:induction false} ReplaceAllSkips(s: string, pat: string, rep: string, n: nat)
    requires pat != [] && n <= |s|
    requires forall k :: 0 <= k < n ==> !OccursAt(s, pat, k)
    ensures ReplaceAll(s, pat, rep) == s[..n] + ReplaceAll(s[n..], pat, rep)
    decreases n
  {
    if n > 0 {
      var t := s[1..];
      assert ReplaceAll(s, pat, rep) == [s[0]] + ReplaceAll(t, pat, rep) by {
        ReplaceAllStep(s, pat, rep);
      }
      assert ReplaceAll(t, pat, rep) == t[..n - 1] + ReplaceAll(t[n - 1..], pat, rep) by {
        forall k | 0 <= k < n - 1 ensures !OccursAt(t, pat, k) {
          OccursInTail(s, pat, k);
        }
        ReplaceAllSkips(t, pat, rep, n - 1);
      }
      SplitAfterHead(s, n);
    }
  }

  /** `replace()` rewrites the leftmost occurrence and carries on after it:
      text before the first occurrence is kept, the occurrence becomes `rep`,
      and the rest is processed on its own. */
  lemma {:induction false} ReplaceAllFirstOccurrence(a: string, pat: string, b: string, rep: string)
    requires pat != []
    requires forall k :: 0 <= k < |a| ==> !OccursAt(a + pat + b, pat, k)
    ensures ReplaceAll(a + pat + b, pat, rep) == a + rep + ReplaceAll(b, pat, rep)
  {
    var s := a + pat + b;
    ReplaceAllSkips(s, pat, rep, |a|);
    assert s[..|a|] == a && s[|a|..] == pat + b;
    ReplaceAllLeading(pat, b, rep);
  }

  /** Deleting a pattern that occurs once, with no earlier start, joins the
      text on either side of it. */
  lemma ReplaceAllDeletesOnly(a: string, pat: string, b: string)
    requires pat != [] && !Contains(b, pat)
    requires forall k :: 0 <= k < |a| ==> !OccursAt(a + pat + b, pat, k)
    ensures ReplaceAll(a + pat + b, pat, "") == a + b
  {
    ReplaceAllFirstOccurrence(a, pat, b, "");
    JoinAroundEmpty(a, ReplaceAll(b, pat, ""));
  }

  /** Joining around an empty replacement is plain concatenation. */
  lemma JoinAroundEmpty(a: string, b: string)
    ensures a + "" + b == a + b
  {
  }

  /** An occurrence at the very start is replaced first. */
  lemma ReplaceAllLeading(pat: string, b: string, rep: string)
    requires pat != []
    ensures ReplaceAll(pat + b, pat, rep) == rep + ReplaceAll(b, pat, rep)
  {
    assert (pat + b)[..|pat|] == pat && (pat + b)[|pat|..] == b;
  }

  // ---------------------------------------------------------------------
  // Decimal digits
  // ---------------------------------------------------------------------

  predicate IsDigit(c: char) {
    '0' <= c <= '9'
  }

  predicate AllDigits(s: string) {
    forall i :: 0 <= i < |s| ==> IsDigit(s[i])
  }

  function DigitChar(d: nat): (c: char)
    requires d < 10
    ensures IsDigit(c) && c as int - '0' as int == d
  {
    ('0' as int + d) as char
  }

  /** `f"{n}"` for a natural number. */
  function Decimal(n: nat): (r: string)
    ensures r != [] && AllDigits(r)
    decreases n
  {
    if n < 10 then [DigitChar(n)] else Decimal(n / 10) + [DigitChar(n % 10)]
  }

  /** The value of a run of decimal digits, read left to right. */
  function DigitsValue(s: string): nat
    requires AllDigits(s)
    decreases |s|
  {
    if s == [] then 0 else DigitsValue(s[..|s| - 1]) * 10 + (s[|s| - 1] as int - '0' as int)
  }

  /** Reading back the digits of `n` gives `n`. */
  lemma {:induction false} DecimalRoundTrip(n: nat)
    ensures DigitsValue(Decimal(n)) == n
    decreases n
  {
    var r := Decimal(n);
    if n >= 10 {
      DecimalRoundTrip(n / 10);
      assert r[..|r| - 1] == Decimal(n / 10);
    }
  }
}
