/** The parts of Python's `str` behaviour that the grading engine depends on:
    character classes, `strip`, `lower`, `isupper`/`islower`, `in`, `startswith`,
    `split`, `splitlines`, `join`, `replace`, `removesuffix`, `int(...)`/`str(...)`
    on decimal digits, and centred `format` padding. */
module PyText {

  /** A value or Python's `None`. */
  datatype Option<T> = None | Some(value: T)

  /** `str.isspace()`, which is also what the regex class `\s` and argument-less
      `strip()`/`split()` use for `str` values. */
  predicate IsSpace(c: char) {
    var n := c as int;
    (9 <= n <= 13) || (28 <= n <= 32) || n == 0x85 || n == 0xA0 || n == 0x1680
    || (0x2000 <= n <= 0x200A) || n == 0x2028 || n == 0x2029 || n == 0x202F
    || n == 0x205F || n == 0x3000
  }

  /** The line boundaries recognised by `str.splitlines()`. */
  predicate IsLineBreak(c: char) {
    var n := c as int;
    (10 <= n <= 13) || (28 <= n <= 30) || n == 0x85 || n == 0x2028 || n == 0x2029
  }

  predicate IsDigit(c: char) { '0' <= c <= '9' }
  predicate IsUpperChar(c: char) { 'A' <= c <= 'Z' }
  predicate IsLowerChar(c: char) { 'a' <= c <= 'z' }
  predicate IsLetter(c: char) { IsUpperChar(c) || IsLowerChar(c) }

  /** The regex class `\w` (restricted to ASCII). */
  predicate IsWordChar(c: char) { IsLetter(c) || IsDigit(c) || c == '_' }

  /** The character classes the scanners below step over. */
  datatype CharClass = Space | NonSpace | Word | Digit | NonLineBreak | Letter | JavaIdent

  predicate InClass(c: char, cls: CharClass) {
    match cls
    case Space => IsSpace(c)
    case NonSpace => !IsSpace(c)
    case Word => IsWordChar(c)
    case Digit => IsDigit(c)
    case NonLineBreak => !IsLineBreak(c)
    case Letter => IsLetter(c)
    case JavaIdent => IsWordChar(c) || c == '$'
  }

  /** Every character of `s` is in `cls`. */
  predicate AllIn(s: string, cls: CharClass) {
    forall k :: 0 <= k < |s| ==> InClass(s[k], cls)
  }

  /** The first index at or after `i` whose character is not in `cls` (or `|s|`). */
  function Skip(s: string, i: nat, cls: CharClass): (j: nat)
    requires i <= |s|
    ensures i <= j <= |s|
    ensures j < |s| ==> !InClass(s[j], cls)
    decreases |s| - i
  {
    if i < |s| && InClass(s[i], cls) then Skip(s, i + 1, cls) else i
  }

  /** Every character `Skip` passes over is in the class. */
  lemma {:induction false} SkipSpan(s: string, i: nat, cls: CharClass)
    requires i <= |s|
    ensures forall k :: i <= k < Skip(s, i, cls) ==> InClass(s[k], cls)
    decreases |s| - i
  {
    if i < |s| && InClass(s[i], cls) {
      SkipSpan(s, i + 1, cls);
    }
  }

  /** `Skip` is determined by the characters it looks at. */
  lemma SkipChars(s: string, i: nat, cls: CharClass, j: nat)
    requires i <= j <= |s|
    requires forall k :: i <= k < j ==> InClass(s[k], cls)
    requires j == |s| || !InClass(s[j], cls)
    ensures Skip(s, i, cls) == j
    decreases |s| - i
  {
    if i < j { SkipChars(s, i + 1, cls, j); }
  }

  /** The end of `s` once trailing whitespace after `lo` is dropped. */
  function TrimEnd(s: string, lo: nat, e: nat): (b: nat)
    requires lo <= e <= |s|
    ensures lo <= b <= e
    ensures b > lo ==> !IsSpace(s[b - 1])
    decreases e
  {
    if e > lo && IsSpace(s[e - 1]) then TrimEnd(s, lo, e - 1) else e
  }

  /** Everything `TrimEnd` drops is whitespace. */
  lemma {:induction false} TrimEndSpan(s: string, lo: nat, e: nat)
    requires lo <= e <= |s|
    ensures forall k :: TrimEnd(s, lo, e) <= k < e ==> IsSpace(s[k])
    decreases e
  {
    if e > lo && IsSpace(s[e - 1]) {
      TrimEndSpan(s, lo, e - 1);
    }
  }

  /** `str.strip()` with no argument. */
  function Strip(s: string): (r: string)
    ensures |r| <= |s|
  {
    var a := Skip(s, 0, Space);
    var b := TrimEnd(s, a, |s|);
    s[a..b]
  }

  /** `strip` leaves nothing of an all-whitespace string, and otherwise a string that neither
      starts nor ends with whitespace. */
  lemma StripTrims(s: string)
    ensures Strip(s) == [] <==> forall k :: 0 <= k < |s| ==> IsSpace(s[k])
    ensures Strip(s) != [] ==> !IsSpace(Strip(s)[0]) && !IsSpace(Strip(s)[|Strip(s)| - 1])
  {
    var a := Skip(s, 0, Space);
    var b := TrimEnd(s, a, |s|);
    SkipSpan(s, 0, Space);
    TrimEndSpan(s, a, |s|);
    assert a < |s| ==> a < b by {
      if a < |s| { assert !IsSpace(s[a]); }
    }
  }

  /** `strip` only removes characters. */
  lemma StripChars(s: string, c: char)
    requires c in Strip(s)
    ensures c in s
  {
    var a := Skip(s, 0, Space);
    var b := TrimEnd(s, a, |s|);
    var i :| 0 <= i < |Strip(s)| && Strip(s)[i] == c;
    assert s[a + i] == c;
  }

  /** Whitespace around a word with non-space ends is exactly what `strip` removes. */
  lemma StripPadded(lead: string, w: string, trail: string)
    requires forall k :: 0 <= k < |lead| ==> IsSpace(lead[k])
    requires forall k :: 0 <= k < |trail| ==> IsSpace(trail[k])
    requires w != [] && !IsSpace(w[0]) && !IsSpace(w[|w| - 1])
    ensures Strip(lead + w + trail) == w
  {
    var s := lead + w + trail;
    SkipChars(s, 0, Space, |lead|);
    TrimEndChars(s, |lead|, |lead| + |w|);
    assert s[|lead|..|lead| + |w|] == w;
  }

  lemma TrimEndChars(s: string, lo: nat, b: nat)
    requires lo < b <= |s|
    requires !IsSpace(s[b - 1])
    requires forall k :: b <= k < |s| ==> IsSpace(s[k])
    ensures TrimEnd(s, lo, |s|) == b
  {
    var e := |s|;
    while e > b
      invariant b <= e <= |s|
      invariant TrimEnd(s, lo, e) == TrimEnd(s, lo, |s|)
    {
      e := e - 1;
    }
  }

  function LowerChar(c: char): char {
    if IsUpperChar(c) then (c as int + 32) as char else c
  }

  /** `str.lower()` (ASCII case mapping). */
  function Lower(s: string): (r: string)
    ensures |r| == |s|
    ensures forall k :: 0 <= k < |s| ==> r[k] == LowerChar(s[k])
  {
    seq(|s|, k requires 0 <= k < |s| => LowerChar(s[k]))
  }

  /** `str.isupper()`: some cased character, and none of them lower case. */
  predicate PyIsUpper(s: string) {
    (exists k :: 0 <= k < |s| && IsUpperChar(s[k])) && forall k :: 0 <= k < |s| ==> !IsLowerChar(s[k])
  }

  /** `str.islower()`: some cased character, and none of them upper case. */
  predicate PyIsLower(s: string) {
    (exists k :: 0 <= k < |s| && IsLowerChar(s[k])) && forall k :: 0 <= k < |s| ==> !IsUpperChar(s[k])
  }

  predicate OccursAt(s: string, sub: string, i: nat) {
    i + |sub| <= |s| && s[i..i + |sub|] == sub
  }

  /** Python's `sub in s`. */
  predicate Contains(s: string, sub: string) {
    exists i: nat :: i <= |s| && OccursAt(s, sub, i)
  }

  /** A substring whose first character does not occur in `s` is not in `s`. */
  lemma FirstCharAbsent(s: string, sub: string)
    requires sub != [] && sub[0] !in s
    ensures !Contains(s, sub)
  {
    forall i: nat | i <= |s| ensures !OccursAt(s, sub, i) {
      if i + |sub| <= |s| { assert s[i..i + |sub|][0] == s[i]; }
    }
  }

  predicate StartsWith(s: string, prefix: string) {
    |prefix| <= |s| && s[..|prefix|] == prefix
  }

  predicate EndsWith(s: string, suffix: string) {
    |suffix| <= |s| && s[|s| - |suffix|..] == suffix
  }

  /** `str.removesuffix(suffix)`. */
  function RemoveSuffix(s: string, suffix: string): (r: string)
    ensures suffix != [] && EndsWith(s, suffix) ==> r + suffix == s
    ensures !EndsWith(s, suffix) ==> r == s
  {
    if suffix != [] && EndsWith(s, suffix) then s[..|s| - |suffix|] else s
  }

  /** `s.replace(c, "")` for a single character `c`. */
  function RemoveChar(s: string, c: char): (r: string)
    ensures c !in r
    ensures |r| <= |s|
  {
    if s == [] then [] else (if s[0] == c then [] else [s[0]]) + RemoveChar(s[1..], c)
  }

  /** `sep.join(parts)`. */
  function Join(parts: seq<string>, sep: string): string
  {
    if |parts| == 0 then [] else if |parts| == 1 then parts[0] else parts[0] + sep + Join(parts[1..], sep)
  }

  /** Replacement, left to right and without overlaps: `s.replace(pat, rep)`. */
  function ReplaceAll(s: string, pat: string, rep: string): (r: string)
    requires pat != []
    decreases |s|
  {
    if |s| < |pat| then s
    else if s[..|pat|] == pat then rep + ReplaceAll(s[|pat|..], pat, rep)
    else [s[0]] + ReplaceAll(s[1..], pat, rep)
  }

  /** Dropping the first character shifts every occurrence one place left. */
  lemma OccursShift(s: string, pat: string, i: nat)
    requires s != []
    ensures OccursAt(s[1..], pat, i) <==> OccursAt(s, pat, i + 1)
  {
    if i + |pat| <= |s[1..]| {
      assert s[1..][i..i + |pat|] == s[i + 1..i + 1 + |pat|];
    }
  }

  /** Text in which `pat` does not occur is left as it is. */
  lemma {:induction false} ReplaceAbsent(s: string, pat: string, rep: string)
    requires pat != [] && !Contains(s, pat)
    ensures ReplaceAll(s, pat, rep) == s
    decreases |s|
  {
    if |s| >= |pat| {
      assert !OccursAt(s, pat, 0);
      ReplaceMiss(s, pat, rep);
      forall i: nat | i <= |s[1..]| ensures !OccursAt(s[1..], pat, i) {
        OccursShift(s, pat, i);
      }
      ReplaceAbsent(s[1..], pat, rep);
    }
  }

  lemma ReplaceMiss(s: string, pat: string, rep: string)
    requires pat != [] && |pat| <= |s| && !OccursAt(s, pat, 0)
    ensures ReplaceAll(s, pat, rep) == [s[0]] + ReplaceAll(s[1..], pat, rep)
  {
    assert s[..|pat|] == s[0..|pat|];
  }
  /** The leftmost occurrence is the first one rewritten. */
  lemma {:induction false} ReplaceFromFirst(s: string, pat: string, rep: string, b: nat)
    requires pat != [] && OccursAt(s, pat, b)
    requires forall i: nat :: i < b ==> !OccursAt(s, pat, i)
    ensures ReplaceAll(s, pat, rep) == s[..b] + rep + ReplaceAll(s[b + |pat|..], pat, rep)
    decreases b, 1
  {
    if b == 0 {
      ReplaceAtStart(s, pat, rep);
      assert s[..b] == [];
    } else {
      ReplaceMiss(s, pat, rep);
      ReplaceAfterFirstChar(s, pat, rep, b);
      Regroup(s, rep, ReplaceAll(s[b + |pat|..], pat, rep), b);
    }
  }

  lemma ReplaceAtStart(s: string, pat: string, rep: string)
    requires pat != [] && OccursAt(s, pat, 0)
    ensures ReplaceAll(s, pat, rep) == rep + ReplaceAll(s[|pat|..], pat, rep)
  {
    assert s[..|pat|] == pat;
  }

  /** The rewrite of the text after its first character, when the leftmost occurrence is later. */
  lemma {:induction false} ReplaceAfterFirstChar(s: string, pat: string, rep: string, b: nat)
    requires pat != [] && 0 < b && OccursAt(s, pat, b)
    requires forall i: nat :: i < b ==> !OccursAt(s, pat, i)
    ensures ReplaceAll(s[1..], pat, rep) == s[1..][..b - 1] + rep + ReplaceAll(s[b + |pat|..], pat, rep)
    decreases b, 0
  {
    var t := s[1..];
    FirstShift(s, pat, b);
    ReplaceFromFirst(t, pat, rep, b - 1);
    assert t[b - 1 + |pat|..] == s[b + |pat|..];
  }

  lemma Regroup(s: string, rep: string, rest: string, b: nat)
    requires 0 < b <= |s|
    ensures [s[0]] + (s[1..][..b - 1] + rep + rest) == s[..b] + rep + rest
  {
    assert s[..b] == [s[0]] + s[1..][..b - 1];
  }

  /** Dropping a character before the leftmost occurrence keeps it the leftmost one. */
  lemma FirstShift(s: string, pat: string, b: nat)
    requires 0 < b && OccursAt(s, pat, b)
    requires forall i: nat :: i < b ==> !OccursAt(s, pat, i)
    ensures OccursAt(s[1..], pat, b - 1)
    ensures forall i: nat :: i < b - 1 ==> !OccursAt(s[1..], pat, i)
  {
    OccursShift(s, pat, b - 1);
    forall i: nat | i < b - 1 ensures !OccursAt(s[1..], pat, i) {
      OccursShift(s, pat, i);
    }
  }

  /** `str.split()` with no argument: the maximal runs of non-whitespace. */
  function Split(s: string): (r: seq<string>)
    ensures |r| <= |s|
    decreases |s|
  {
    var a := Skip(s, 0, Space);
    if a == |s| then []
    else
      var b := Skip(s, a, NonSpace);
      [s[a..b]] + Split(s[b..])
  }

  /** Every part of a split is a nonempty run of non-whitespace. */
  lemma {:induction false} SplitParts(s: string)
    ensures forall k :: 0 <= k < |Split(s)| ==> Split(s)[k] != [] && AllIn(Split(s)[k], NonSpace)
    decreases |s|
  {
    var a := Skip(s, 0, Space);
    if a < |s| {
      var b := Skip(s, a, NonSpace);
      SkipSlice(s, a, NonSpace);
      SplitParts(s[b..]);
      assert Split(s) == [s[a..b]] + Split(s[b..]);
      forall k | 1 <= k < |Split(s)| ensures Split(s)[k] == Split(s[b..])[k - 1] {
      }
    }
  }

  /** One word of `split` on a slice: whitespace from `lo` up to `a`, then the word from `a` up
      to `w`, which ends at whitespace or at the slice's end `hi`. */
  lemma {:induction false} SplitWord(s: string, lo: nat, a: nat, w: nat, hi: nat)
    requires lo <= a < w <= hi <= |s| && Skip(s, lo, Space) == a
    requires Skip(s, a, NonSpace) == w || (w == hi && hi <= Skip(s, a, NonSpace))
    ensures Split(s[lo..hi]) == [s[a..w]] + Split(s[w..hi])
  {
    SplitSliceStep(s, lo, hi);
  }

  /** A slice holding whitespace and then one non-space character splits into that character. */
  lemma {:induction false} SplitSingle(s: string, lo: nat, k: nat)
    requires lo <= k < |s| && Skip(s, lo, Space) == k && !IsSpace(s[k])
    ensures Split(s[lo..k + 1]) == [[s[k]]]
  {
    assert k + 1 <= Skip(s, k, NonSpace);
    SplitWord(s, lo, k, k + 1, k + 1);
    assert Split(s[k + 1..k + 1]) == [];
    assert s[k..k + 1] == [s[k]];
  }

  /** A slice holding a word, whitespace and one more non-space character splits into the
      word and that character. */
  lemma {:induction false} SplitWordThenSingle(s: string, lo: nat, a: nat, w: nat, k: nat)
    requires lo <= a < w < k < |s| && Skip(s, lo, Space) == a && Skip(s, a, NonSpace) == w
    requires Skip(s, w, Space) == k && !IsSpace(s[k])
    ensures Split(s[lo..k + 1]) == [s[a..w], [s[k]]]
  {
    SplitWord(s, lo, a, w, k + 1);
    assert Split(s[w..k + 1]) == [[s[k]]] by {
      SplitSingle(s, w, k);
    }
    TwoParts(Split(s[lo..k + 1]), s[a..w], Split(s[w..k + 1]), [s[k]]);
  }

  /** A first part followed by a one-part rest is a two-part split. */
  lemma TwoParts(parts: seq<string>, first: string, rest: seq<string>, last: string)
    requires parts == [first] + rest && rest == [last]
    ensures parts == [first, last]
  {
  }

  /** `Skip` on a slice agrees with `Skip` on the whole string, cut off at the slice's end. */
  lemma {:induction false} SkipShift(s: string, lo: nat, hi: nat, i: nat, cls: CharClass)
    requires lo <= i <= hi <= |s|
    ensures Skip(s[lo..hi], i - lo, cls) == (if Skip(s, i, cls) < hi then Skip(s, i, cls) else hi) - lo
    decreases hi - i
  {
    if i < hi {
      assert s[lo..hi][i - lo] == s[i];
      if InClass(s[i], cls) {
        SkipShift(s, lo, hi, i + 1, cls);
      }
    }
  }

  /** `Skip` stops at or before the first character outside the class. */
  lemma {:induction false} SkipStops(s: string, i: nat, cls: CharClass, j: nat)
    requires i <= j < |s| && !InClass(s[j], cls)
    ensures Skip(s, i, cls) <= j
    decreases j - i
  {
    if i < j && InClass(s[i], cls) {
      SkipStops(s, i + 1, cls, j);
    }
  }

  /** Skipping non-space characters passes over a run of letters or identifier characters
      first. */
  lemma {:induction false} SkipThrough(s: string, i: nat, narrow: CharClass)
    requires i <= |s| && (narrow == Letter || narrow == JavaIdent)
    ensures Skip(s, i, NonSpace) == Skip(s, Skip(s, i, narrow), NonSpace)
    decreases |s| - i
  {
    if i < |s| && InClass(s[i], narrow) {
      SkipThrough(s, i + 1, narrow);
    }
  }

  /** `strip` of a prefix that ends in a non-space character only drops the leading whitespace. */
  lemma {:induction false} StripPrefix(s: string, e: nat)
    requires 0 < e <= |s| && !IsSpace(s[e - 1])
    ensures Skip(s, 0, Space) < e && Strip(s[..e]) == s[Skip(s, 0, Space)..e]
  {
    var a := Skip(s, 0, Space);
    SkipStops(s, 0, Space, e - 1);
    SkipShift(s, 0, e, 0, Space);
    var t := s[..e];
    assert s[0..e] == t;
    assert t[e - 1] == s[e - 1];
    assert TrimEnd(t, a, e) == e;
    assert t[a..e] == s[a..e];
  }

  /** `Skip` over a slice of characters of the class, up to one outside it. */
  lemma {:induction false} SkipRun(s: string, i: nat, j: nat, cls: CharClass)
    requires i <= j <= |s| && AllIn(s[i..j], cls)
    requires j == |s| || !InClass(s[j], cls)
    ensures Skip(s, i, cls) == j
  {
    forall k | i <= k < j ensures InClass(s[k], cls) {
      assert s[k] == s[i..j][k - i];
    }
    SkipChars(s, i, cls, j);
  }

  /** `Skip` inside the second half of a concatenation does not see the first. */
  lemma {:induction false} SkipAfter(p: string, q: string, i: nat, cls: CharClass)
    requires i <= |q|
    ensures Skip(p + q, |p| + i, cls) == |p| + Skip(q, i, cls)
    decreases |q| - i
  {
    if i < |q| {
      assert (p + q)[|p| + i] == q[i];
      if InClass(q[i], cls) {
        SkipAfter(p, q, i + 1, cls);
      }
    }
  }

  /** `Skip` from the start passes over a leading run of the class and stops after it. */
  lemma {:induction false} SkipWhole(w: string, r: string, cls: CharClass)
    requires AllIn(w, cls) && (r == [] || !InClass(r[0], cls))
    ensures Skip(w + r, 0, cls) == |w|
  {
    assert (w + r)[0..|w|] == w;
    if r != [] {
      assert (w + r)[|w|] == r[0];
    }
    SkipRun(w + r, 0, |w|, cls);
  }

  /** A slice inside the second half of a concatenation. */
  lemma SliceAfter(p: string, q: string, i: nat, j: nat)
    requires i <= j <= |q|
    ensures (p + q)[|p| + i..|p| + j] == q[i..j]
  {
    forall k | 0 <= k < j - i ensures (p + q)[|p| + i..|p| + j][k] == q[i..j][k] {
      assert (p + q)[|p| + i..|p| + j][k] == (p + q)[|p| + i + k];
    }
  }

  /** A slice one character longer is the slice followed by that character. */
  lemma SliceExtend(s: string, i: nat, j: nat)
    requires i <= j < |s|
    ensures s[i..j + 1] == s[i..j] + [s[j]]
  {
  }

  /** A slice of a slice is a slice of the whole. */
  lemma {:induction false} SliceOfSlice(s: string, lo: nat, hi: nat, i: nat, j: nat)
    requires lo <= i <= j <= hi <= |s|
    ensures s[lo..hi][i - lo..j - lo] == s[i..j]
  {
    forall k | 0 <= k < j - i ensures s[lo..hi][i - lo..j - lo][k] == s[i..j][k] {
      assert s[lo..hi][i - lo..j - lo][k] == s[lo..hi][i - lo + k] == s[lo + i - lo + k];
    }
  }

  /** One step of `split` on a slice, read off the whole string: the whitespace from `lo` on,
      then the word after it, cut off at `hi`. */
  lemma {:induction false} SplitSliceStep(s: string, lo: nat, hi: nat)
    requires lo <= hi <= |s|
    ensures var a := Skip(s, lo, Space);
            var b := Skip(s, a, NonSpace);
            var e := if b < hi then b else hi;
            if hi <= a then Split(s[lo..hi]) == []
            else Split(s[lo..hi]) == [s[a..e]] + Split(s[e..hi])
  {
    var t := s[lo..hi];
    var a := Skip(s, lo, Space);
    SkipShift(s, lo, hi, lo, Space);
    if a < hi {
      var b := Skip(s, a, NonSpace);
      SkipShift(s, lo, hi, a, NonSpace);
      var e := if b < hi then b else hi;
      assert Skip(t, 0, Space) == a - lo;
      assert Skip(t, a - lo, NonSpace) == e - lo;
      assert Split(t) == [t[a - lo..e - lo]] + Split(t[e - lo..]);
      SliceOfSlice(s, lo, hi, a, e);
      SliceOfSlice(s, lo, hi, e, hi);
      assert t[e - lo..] == t[e - lo..hi - lo];
    } else {
      assert Skip(t, 0, Space) == |t|;
    }
  }

  /** The characters `Skip` passes over, as a slice. */
  lemma SkipSlice(s: string, i: nat, cls: CharClass)
    requires i <= |s|
    ensures AllIn(s[i..Skip(s, i, cls)], cls)
  {
    var j := Skip(s, i, cls);
    SkipSpan(s, i, cls);
    forall k | 0 <= k < j - i ensures InClass(s[i..j][k], cls) {
      assert s[i..j][k] == s[i + k];
    }
  }

  /** `str.splitlines()`: line boundaries are dropped and a final boundary opens no rep line. */
  function SplitLines(s: string): (r: seq<string>)
    ensures forall k :: 0 <= k < |r| ==> AllIn(r[k], NonLineBreak)
    decreases |s|
  {
    if s == [] then []
    else
      var e := Skip(s, 0, NonLineBreak);
      SkipSpan(s, 0, NonLineBreak);
      if e == |s| then [s]
      else
        var next := if s[e] == '\r' && e + 1 < |s| && s[e + 1] == '\n' then e + 2 else e + 1;
        [s[..e]] + SplitLines(s[next..])
  }

  /** Every line followed by "\n", the way a program prints lines. */
  function Unlines(lines: seq<string>): string {
    if lines == [] then [] else lines[0] + "\n" + Unlines(lines[1..])
  }

  /** Printing lines and splitting them again gives the same lines back. */
  lemma {:induction false} SplitLinesUnlines(lines: seq<string>)
    requires forall k :: 0 <= k < |lines| ==> AllIn(lines[k], NonLineBreak)
    ensures SplitLines(Unlines(lines)) == lines
  {
    if lines != [] {
      var l := lines[0];
      var s := Unlines(lines);
      SplitLinesStep(l, Unlines(lines[1..]));
      SplitLinesUnlines(lines[1..]);
    }
  }

  /** One line terminated by "\n" comes off the front of `splitlines`. */
  lemma SplitLinesStep(l: string, rest: string)
    requires AllIn(l, NonLineBreak)
    ensures SplitLines(l + "\n" + rest) == [l] + SplitLines(rest)
  {
    var s := l + "\n" + rest;
    SkipChars(s, 0, NonLineBreak, |l|);
    assert s[..|l|] == l;
    assert s[|l| + 1..] == rest;
  }

  /** A last line without a terminator is a line of its own. */
  lemma SplitLinesLast(l: string)
    requires l != [] && AllIn(l, NonLineBreak)
    ensures SplitLines(l) == [l]
  {
    SkipChars(l, 0, NonLineBreak, |l|);
  }

  function DigitValue(c: char): nat
    requires IsDigit(c)
  {
    c as int - '0' as int
  }

  /** `int(d)` for a string of ASCII digits. */
  function DecimalValue(d: string): nat
    requires forall k :: 0 <= k < |d| ==> IsDigit(d[k])
  {
    if d == [] then 0 else DecimalValue(d[..|d| - 1]) * 10 + DigitValue(d[|d| - 1])
  }

  /** `str(n)` for a natural number. */
  function Show(n: nat): (r: string)
    ensures r != []
    ensures forall k :: 0 <= k < |r| ==> IsDigit(r[k])
  {
    if n < 10 then [('0' as int + n) as char] else Show(n / 10) + [('0' as int + n % 10) as char]
  }

  /** `int(str(n)) == n`. */
  lemma {:induction false} DecimalValueShow(n: nat)
    ensures DecimalValue(Show(n)) == n
  {
    var r := Show(n);
    if n >= 10 {
      DecimalValueShow(n / 10);
      assert r[..|r| - 1] == Show(n / 10);
    }
  }

  /** `format(s, fill + "^" + width)`: centred, with the odd pad character on the right. */
  function Center(s: string, width: nat, fill: char): (r: string)
    ensures |r| == if |s| >= width then |s| else width
  {
    if |s| >= width then s
    else
      var pad := width - |s|;
      seq(pad / 2, _ => fill) + s + seq(pad - pad / 2, _ => fill)
  }
}
