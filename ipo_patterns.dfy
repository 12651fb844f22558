/** The IPO ("input / processing / output") heading search shared by every grader: the
    source is stripped and lower-cased line by line, joined with "\n", and searched in
    MULTILINE mode for four heading patterns. The three graders differ only in the comment
    marker, whether the first letter may be a capital, and whether the heading must end its
    line; a `Style` records those three choices. */
module IpoPatterns {
  import opened PyText
  import opened Scoring

  /** The marker a heading follows ("#" or "//"), whether its first letter may be a capital
      (`[Ii]nput`) and whether it must end its line (a trailing `$`). */
  datatype Style = Style(marker: string, eitherCase: bool, wholeLine: bool)

  datatype Heading = Input | Processing | Output | ProcessingOutput

  /** Each line stripped and lower-cased. */
  function Normalized(lines: seq<string>): (r: seq<string>)
    ensures |r| == |lines|
    ensures forall k :: 0 <= k < |r| ==> r[k] == Lower(Strip(lines[k]))
  {
    seq(|lines|, k requires 0 <= k < |lines| => Lower(Strip(lines[k])))
  }

  /** The string the heading patterns are searched in. */
  function SearchText(lines: seq<string>): string
  {
    Join(Normalized(lines), "\n")
  }

  /** MULTILINE `^`: the start of the text or just after a "\n". */
  predicate LineStart(t: string, p: nat)
  {
    p == 0 || (0 < p <= |t| && t[p - 1] == '\n')
  }

  /** MULTILINE `$`: the end of the text or just before a "\n". */
  predicate LineEnd(t: string, i: nat)
  {
    i == |t| || (i < |t| && t[i] == '\n')
  }

  /** Where `\s?` leaves the match. Every `\s?` in the patterns is followed by a letter or
      "/", neither of which is whitespace, so the greedy choice is the only one that can
      succeed and no backtracking is needed. */
  function OptSpace(t: string, i: nat): (j: nat)
    ensures i <= j <= i + 1
    ensures j == i + 1 <==> i < |t| && IsSpace(t[i])
  {
    if i < |t| && IsSpace(t[i]) then i + 1 else i
  }

  /** `[Ii]` when `eitherCase`, otherwise the letter itself. */
  predicate LetterMatches(c: char, w: char, eitherCase: bool)
  {
    c == w || (eitherCase && IsUpperChar(c) && LowerChar(c) == w)
  }

  /** The characters of `w` appear in `t` from `i` on. */
  predicate CharsAt(t: string, i: nat, w: string)
  {
    i + |w| <= |t| && forall q :: 0 <= q < |w| ==> t[i + q] == w[q]
  }

  /** The word `w` at `i`, its first letter possibly a capital. */
  predicate WordAt(t: string, i: nat, w: string, eitherCase: bool)
  {
    w != [] && i < |t| && LetterMatches(t[i], w[0], eitherCase) && CharsAt(t, i + 1, w[1..])
  }

  /** The word `w` at `i`, followed by the end of the line when the style asks for it. */
  predicate WordEnds(t: string, i: nat, w: string, st: Style)
  {
    WordAt(t, i, w, st.eitherCase) && (st.wholeLine ==> LineEnd(t, i + |w|))
  }

  /** The heading pattern `h` matches at `p` (the `^` aside). */
  predicate HeadingAt(t: string, p: nat, st: Style, h: Heading)
  {
    var i := p + |st.marker|;
    CharsAt(t, p, st.marker) &&
    var j := OptSpace(t, i);
    match h
    case Input => WordEnds(t, j, "input", st)
    case Processing => WordEnds(t, j, "processing", st)
    case Output => WordEnds(t, j, "output", st)
    case ProcessingOutput =>
      WordAt(t, j, "processing", st.eitherCase) &&
      var k := OptSpace(t, j + 10);
      k < |t| && t[k] == '/' && WordEnds(t, OptSpace(t, k + 1), "output", st)
  }

  /** `re.search(pattern, t, re.MULTILINE)` is not None. */
  predicate Found(t: string, st: Style, h: Heading)
  {
    exists p: nat :: p <= |t| && LineStart(t, p) && HeadingAt(t, p, st, h)
  }

  /** `grade_ipo_comments`: the decision table applied to what the four searches find. */
  function GradeIpo(lines: seq<string>, st: Style, eol: string): (g: Grade)
    ensures g.level == 0.0 <==> forall h :: !Found(SearchText(lines), st, h)
    ensures g.level == 4.0 <==>
              Found(SearchText(lines), st, Input)
              && ((Found(SearchText(lines), st, Processing) && Found(SearchText(lines), st, Output))
                  || Found(SearchText(lines), st, ProcessingOutput))
  {
    var t := SearchText(lines);
    var g := IpoGrade(Found(t, st, Input), Found(t, st, Processing), Found(t, st, Output), Found(t, st, ProcessingOutput), eol);
    assert g.level != 0.0 ==> exists h :: Found(t, st, h) by {
      if g.level != 0.0 {
        if Found(t, st, Input) { assert Found(t, st, Input); }
        else if Found(t, st, Processing) { assert Found(t, st, Processing); }
        else if Found(t, st, Output) { assert Found(t, st, Output); }
        else { assert Found(t, st, ProcessingOutput); }
      }
    }
    g
  }

  /** Where line `k` begins once the lines are joined with "\n". */
  function LineOffset(parts: seq<string>, k: nat): nat
    requires k <= |parts|
  {
    if k == 0 then 0 else |parts[0]| + 1 + LineOffset(parts[1..], k - 1)
  }

  /** Every joined line sits between a line start and a line end of the joined text. */
  lemma {:induction false} JoinedLine(parts: seq<string>, k: nat)
    requires k < |parts|
    ensures LineOffset(parts, k) + |parts[k]| <= |Join(parts, "\n")|
    ensures Join(parts, "\n")[LineOffset(parts, k)..LineOffset(parts, k) + |parts[k]|] == parts[k]
    ensures LineStart(Join(parts, "\n"), LineOffset(parts, k))
    ensures LineEnd(Join(parts, "\n"), LineOffset(parts, k) + |parts[k]|)
  {
    var t := Join(parts, "\n");
    if k == 0 {
      if |parts| > 1 {
        assert t == parts[0] + "\n" + Join(parts[1..], "\n");
        assert t[|parts[0]|] == '\n';
      }
    } else {
      JoinedLine(parts[1..], k - 1);
      assert parts[1..][k - 1] == parts[k];
      assert t == parts[0] + "\n" + Join(parts[1..], "\n");
      LineInTail(parts[0], Join(parts[1..], "\n"), LineOffset(parts[1..], k - 1), parts[k]);
    }
  }

  /** A line of the text after a first line and its "\n" is a line of the whole text. */
  lemma LineInTail(first: string, rest: string, o: nat, line: string)
    requires o + |line| <= |rest| && rest[o..o + |line|] == line
    requires LineStart(rest, o) && LineEnd(rest, o + |line|)
    ensures |first| + 1 + o + |line| <= |first + "\n" + rest|
    ensures (first + "\n" + rest)[|first| + 1 + o..|first| + 1 + o + |line|] == line
    ensures LineStart(first + "\n" + rest, |first| + 1 + o)
    ensures LineEnd(first + "\n" + rest, |first| + 1 + o + |line|)
  {
    var t, base, n := first + "\n" + rest, |first| + 1, |line|;
    assert t[base..] == rest;
    assert t[base + o..base + o + n] == rest[o..o + n];
    if o == 0 {
      assert t[base - 1] == '\n';
    } else {
      assert t[base + o - 1] == rest[o - 1];
    }
    if o + n < |rest| {
      assert t[base + o + n] == rest[o + n];
    }
  }

  /** Characters matched inside an embedded line are matched in the text around it. */
  lemma CharsEmbedded(line: string, t: string, p: nat, i: nat, w: string)
    requires p + |line| <= |t| && t[p..p + |line|] == line
    requires CharsAt(line, i, w)
    ensures CharsAt(t, p + i, w)
  {
    forall q | 0 <= q < |w| ensures t[p + i + q] == w[q] {
      assert t[p + i + q] == t[p..p + |line|][i + q];
    }
  }

  lemma OptSpaceEmbedded(line: string, t: string, p: nat, i: nat)
    requires p + |line| <= |t| && t[p..p + |line|] == line && i < |line|
    ensures OptSpace(t, p + i) == p + OptSpace(line, i)
  {
    assert t[p + i] == t[p..p + |line|][i];
  }

  lemma WordEmbedded(line: string, t: string, p: nat, j: nat, w: string, st: Style)
    requires p + |line| <= |t| && t[p..p + |line|] == line && LineEnd(t, p + |line|)
    requires WordAt(line, j, w, st.eitherCase)
    ensures WordAt(t, p + j, w, st.eitherCase)
    ensures WordEnds(line, j, w, st) ==> WordEnds(t, p + j, w, st)
  {
    assert t[p + j] == t[p..p + |line|][j];
    CharsEmbedded(line, t, p, j + 1, w[1..]);
    if st.wholeLine && LineEnd(line, j + |w|) && j + |w| < |line| {
      assert t[p + j + |w|] == t[p..p + |line|][j + |w|];
    }
  }

  /** A heading found on a line alone is found on that line inside a longer text. */
  lemma HeadingEmbedded(line: string, t: string, p: nat, st: Style, h: Heading)
    requires p + |line| <= |t| && t[p..p + |line|] == line && LineEnd(t, p + |line|)
    requires HeadingAt(line, 0, st, h)
    ensures HeadingAt(t, p, st, h)
  {
    var m := |st.marker|;
    CharsEmbedded(line, t, p, 0, st.marker);
    var j := OptSpace(line, m);
    OptSpaceEmbedded(line, t, p, m);
    match h {
      case Input => WordEmbedded(line, t, p, j, "input", st);
      case Processing => WordEmbedded(line, t, p, j, "processing", st);
      case Output => WordEmbedded(line, t, p, j, "output", st);
      case ProcessingOutput => CombinedEmbedded(line, t, p, j, st);
    }
  }

  /** The `processing/output` part of a heading, found on a line alone, is found inside the text. */
  lemma CombinedEmbedded(line: string, t: string, p: nat, j: nat, st: Style)
    requires p + |line| <= |t| && t[p..p + |line|] == line && LineEnd(t, p + |line|)
    requires WordAt(line, j, "processing", st.eitherCase)
    requires OptSpace(line, j + 10) < |line| && line[OptSpace(line, j + 10)] == '/'
    requires WordEnds(line, OptSpace(line, OptSpace(line, j + 10) + 1), "output", st)
    ensures WordAt(t, p + j, "processing", st.eitherCase)
    ensures OptSpace(t, p + j + 10) == p + OptSpace(line, j + 10)
    ensures t[p + OptSpace(line, j + 10)] == '/'
    ensures WordEnds(t, OptSpace(t, p + OptSpace(line, j + 10) + 1), "output", st)
  {
    WordEmbedded(line, t, p, j, "processing", st);
    var k := OptSpace(line, j + 10);
    OptSpaceEmbedded(line, t, p, j + 10);
    assert t[p + k] == t[p..p + |line|][k];
    var l := OptSpace(line, k + 1);
    OptSpaceEmbedded(line, t, p, k + 1);
    WordEmbedded(line, t, p, l, "output", st);
  }

  /** A line whose stripped, lower-cased form is a heading makes the search succeed. */
  lemma HeadingLineFound(lines: seq<string>, k: nat, st: Style, h: Heading)
    requires k < |lines| && HeadingAt(Lower(Strip(lines[k])), 0, st, h)
    ensures Found(SearchText(lines), st, h)
  {
    var parts := Normalized(lines);
    var t := SearchText(lines);
    JoinedLine(parts, k);
    var o := LineOffset(parts, k);
    HeadingEmbedded(parts[k], t, o, st, h);
  }

  /** A character other than "\n" that no line holds is not in the joined text. */
  lemma {:induction false} JoinAvoids(parts: seq<string>, c: char)
    requires c != '\n' && forall k :: 0 <= k < |parts| ==> c !in parts[k]
    ensures c !in Join(parts, "\n")
    decreases |parts|
  {
    if |parts| > 1 {
      assert Join(parts, "\n") == parts[0] + "\n" + Join(parts[1..], "\n");
      assert forall k :: 0 <= k < |parts[1..]| ==> parts[1..][k] == parts[k + 1];
      JoinAvoids(parts[1..], c);
    }
  }

  /** Stripping and lower-casing a line cannot introduce a character that is not lower case. */
  lemma LowerStripAvoids(s: string, c: char)
    requires c !in s && !IsLowerChar(c)
    ensures c !in Lower(Strip(s))
  {
    var stripped := Strip(s);
    forall q | 0 <= q < |stripped| ensures LowerChar(stripped[q]) != c {
      StripChars(s, stripped[q]);
    }
  }

  /** A file in which the marker's first character never occurs has no IPO heading at all,
      provided lower-casing cannot produce that character. */
  lemma NoMarkerInLines(lines: seq<string>, st: Style, h: Heading)
    requires st.marker != [] && st.marker[0] != '\n' && !IsLowerChar(st.marker[0])
    requires forall l :: l in lines ==> st.marker[0] !in l
    ensures !Found(SearchText(lines), st, h)
  {
    var t := SearchText(lines);
    var m := st.marker[0];
    forall k | 0 <= k < |lines| ensures m !in Normalized(lines)[k] {
      LowerStripAvoids(lines[k], m);
    }
    JoinAvoids(Normalized(lines), m);
    assert forall i :: 0 <= i < |t| ==> t[i] in t;
    NoMarkerNotFound(t, st, h);
  }

  /** Without the marker's first character anywhere in the text, no heading is found. */
  lemma NoMarkerNotFound(t: string, st: Style, h: Heading)
    requires st.marker != [] && forall i :: 0 <= i < |t| ==> t[i] != st.marker[0]
    ensures !Found(t, st, h)
  {
    forall p: nat | p <= |t| ensures !CharsAt(t, p, st.marker) {
      if p < |t| {
        assert t[p + 0] != st.marker[0];
      }
    }
  }
}
