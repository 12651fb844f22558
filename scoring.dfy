/** What both grading strategies share: exceptions as values, captured tool runs,
    rounding, the pass-ratio level, the IPO decision table and the weighted aggregate
    with its bannered report. */
module Scoring {
  import opened PyText

  /** The Python exceptions a check can let escape. */
  datatype PyError = IndexError | ZeroDivisionError | AttributeError | KeyError | TimeoutExpired | FileNotFoundError

  /** A value returned normally, or the exception raised instead. */
  datatype Result<T> = Ok(value: T) | Raised(error: PyError)

  /** The `(level, comment)` pair every check returns. */
  datatype Grade = Grade(level: real, comment: string)

  /** A captured subprocess: it was killed at its timeout, or it exited. */
  datatype Run = Timeout | Exited(returncode: int, stdout: string, stderr: string)

  /** `round(x, 1)`, ties rounded up. */
  function RoundTenths(x: real): (r: real)
    ensures x - 0.05 < r <= x + 0.05
  {
    ((x * 10.0 + 0.5).Floor as real) / 10.0
  }

  /** `round(x, 2)`, ties rounded up. */
  function RoundHundredths(x: real): (r: real)
    ensures x - 0.005 < r <= x + 0.005
  {
    ((x * 100.0 + 0.5).Floor as real) / 100.0
  }

  lemma RoundTenthsMonotone(x: real, y: real)
    requires x <= y
    ensures RoundTenths(x) <= RoundTenths(y)
  {
    var fx, fy := (x * 10.0 + 0.5).Floor, (y * 10.0 + 0.5).Floor;
    assert x * 10.0 + 0.5 <= y * 10.0 + 0.5;
    assert fx as real < fy as real + 1.0;
    assert fx <= fy;
  }

  lemma RoundHundredthsMonotone(x: real, y: real)
    requires x <= y
    ensures RoundHundredths(x) <= RoundHundredths(y)
  {
    var fx, fy := (x * 100.0 + 0.5).Floor, (y * 100.0 + 0.5).Floor;
    assert x * 100.0 + 0.5 <= y * 100.0 + 0.5;
    assert fx as real < fy as real + 1.0;
    assert fx <= fy;
  }

  /** A value that already has one decimal place is left as it is. */
  lemma RoundTenthsExact(k: int)
    ensures RoundTenths(k as real / 10.0) == k as real / 10.0
  {
    assert (k as real / 10.0 * 10.0 + 0.5).Floor == k;
  }

  lemma RoundHundredthsExact(k: int)
    ensures RoundHundredths(k as real / 100.0) == k as real / 100.0
  {
    assert (k as real / 100.0 * 100.0 + 0.5).Floor == k;
  }

  /** Rounding keeps a level inside the 0..4 scale. */
  lemma RoundTenthsInScale(x: real)
    requires 0.0 <= x <= 4.0
    ensures 0.0 <= RoundTenths(x) <= 4.0
  {
    RoundTenthsMonotone(0.0, x);
    RoundTenthsMonotone(x, 4.0);
    RoundTenthsExact(0);
    RoundTenthsExact(40);
  }

  /** `round(passed / (passed + failed) * 4, 1)`: the correctness level. */
  function PassRatioLevel(passed: nat, failed: nat): (r: real)
    requires passed + failed > 0
    ensures 0.0 <= r <= 4.0
    ensures failed == 0 ==> r == 4.0
    ensures passed == 0 ==> r == 0.0
    ensures var x := 4.0 * passed as real / (passed + failed) as real; x - 0.05 < r <= x + 0.05
  {
    var n := (passed + failed) as real;
    var ratio := passed as real / n;
    assert ratio * n == passed as real;
    assert ratio * 4.0 == 4.0 * passed as real / n;
    assert 0.0 <= ratio <= 1.0;
    RoundTenthsInScale(ratio * 4.0);
    RoundTenthsExact(0);
    RoundTenthsExact(40);
    assert failed == 0 ==> ratio * 4.0 == 40 as real / 10.0;
    RoundTenths(ratio * 4.0)
  }

  /** A larger share of passing tests never gives a lower level. */
  lemma PassRatioMonotone(p1: nat, f1: nat, p2: nat, f2: nat)
    requires p1 + f1 > 0 && p2 + f2 > 0
    requires p1 * (p2 + f2) <= p2 * (p1 + f1)
    ensures PassRatioLevel(p1, f1) <= PassRatioLevel(p2, f2)
  {
    var n1, n2 := (p1 + f1) as real, (p2 + f2) as real;
    var r1, r2 := p1 as real / n1, p2 as real / n2;
    assert r1 * n1 * n2 == p1 as real * n2;
    assert r2 * n1 * n2 == p2 as real * n1;
    assert (p1 * (p2 + f2)) as real <= (p2 * (p1 + f1)) as real;
    assert r1 * (n1 * n2) <= r2 * (n1 * n2);
    assert r1 <= r2;
    RoundTenthsMonotone(r1 * 4.0, r2 * 4.0);
  }

  /** The levels the pytest fixtures expect: all passed, half, none, two of three. */
  lemma PassRatioFixtures()
    ensures PassRatioLevel(2, 0) == 4.0
    ensures PassRatioLevel(1, 1) == 2.0
    ensures PassRatioLevel(0, 2) == 0.0
    ensures PassRatioLevel(2, 1) == 2.7
  {
    RoundTenthsExact(20);
    assert (2.0 / 3.0 * 4.0 * 10.0 + 0.5).Floor == 27;
  }

  /** The correctness level from counted outcomes, guarding against no outcomes at all. */
  function CountsGrade(passed: nat, failed: nat, output: string, guidance: string): (g: Grade)
    ensures 0.0 <= g.level <= 4.0
    ensures g.level == 1.0 || g.comment == output
    ensures passed + failed == 0 ==> g == Grade(1.0, guidance)
    ensures passed + failed > 0 ==>
              var x := 4.0 * passed as real / (passed + failed) as real;
              g.comment == output && x - 0.05 < g.level <= x + 0.05
  {
    if passed + failed == 0 then Grade(1.0, guidance) else Grade(PassRatioLevel(passed, failed), output)
  }

  /** With at least one outcome the level is the pass ratio on four, and the comment is the
      output; with none it is 1.0 with the guidance. */
  lemma CountsGradeCases(passed: nat, failed: nat, output: string, guidance: string)
    ensures passed + failed > 0 ==> CountsGrade(passed, failed, output, guidance) == Grade(PassRatioLevel(passed, failed), output)
    ensures passed + failed == 0 ==> CountsGrade(passed, failed, output, guidance) == Grade(1.0, guidance)
  {
  }

  /** One more pass never lowers the level: with no outcomes before, the level goes from 1.0
      to 4.0. */
  lemma CountsGradeOnePass(passed: nat, failed: nat, before: string, after: string, guidance: string)
    ensures CountsGrade(passed, failed, before, guidance).level <= CountsGrade(passed + 1, failed, after, guidance).level
  {
    if passed + failed == 0 {
      assert CountsGrade(passed + 1, failed, after, guidance).level == 4.0;
    } else {
      PassRatioMonotone(passed, failed, passed + 1, failed);
    }
  }

  /** The lines that pass `keep`, in order: a list comprehension with a filter. */
  function Filter(lines: seq<string>, keep: string -> bool): (r: seq<string>)
    ensures |r| <= |lines|
  {
    if lines == [] then []
    else Filter(lines[..|lines| - 1], keep) + (if keep(lines[|lines| - 1]) then [lines[|lines| - 1]] else [])
  }

  /** The filter keeps exactly the lines that pass. */
  lemma {:induction false} FilterMembers(lines: seq<string>, keep: string -> bool, l: string)
    ensures l in Filter(lines, keep) <==> l in lines && keep(l)
  {
    if lines != [] {
      var init := lines[..|lines| - 1];
      FilterMembers(init, keep, l);
      assert lines == init + [lines[|lines| - 1]];
    }
  }

  /** `sum(word in line for line in lines)`. */
  function CountContaining(lines: seq<string>, word: string): (n: nat)
    ensures n <= |lines|
  {
    if lines == [] then 0
    else CountContaining(lines[..|lines| - 1], word) + (if Contains(lines[|lines| - 1], word) then 1 else 0)
  }

  /** Counting over two blocks of lines adds up. */
  lemma {:induction false} CountContainingAppend(a: seq<string>, b: seq<string>, word: string)
    ensures CountContaining(a + b, word) == CountContaining(a, word) + CountContaining(b, word)
    decreases |b|
  {
    if b == [] {
      assert a + b == a;
    } else {
      var b' := b[..|b| - 1];
      CountContainingAppend(a, b', word);
      assert (a + b)[..|a + b| - 1] == a + b';
    }
  }

  /** Filtering two blocks of lines filters each. */
  lemma {:induction false} FilterAppend(a: seq<string>, b: seq<string>, keep: string -> bool)
    ensures Filter(a + b, keep) == Filter(a, keep) + Filter(b, keep)
    decreases |b|
  {
    if b == [] {
      assert a + b == a;
    } else {
      var b' := b[..|b| - 1];
      FilterAppend(a, b', keep);
      assert (a + b)[..|a + b| - 1] == a + b';
    }
  }

  /** `line.strip() == ""`. */
  predicate Blank(line: string)
  {
    Strip(line) == []
  }

  /** `itertools.dropwhile(skip, lines)`: what is left once the leading lines `skip` accepts
      are gone. */
  function DropWhile(lines: seq<string>, skip: string -> bool): (r: seq<string>)
    ensures |r| <= |lines|
    ensures r != [] ==> !skip(r[0])
  {
    if lines != [] && skip(lines[0]) then DropWhile(lines[1..], skip) else lines
  }

  /** What is dropped is a run of accepted lines at the front; the rest is kept as it is. */
  lemma {:induction false} DropWhileSuffix(lines: seq<string>, skip: string -> bool)
    ensures var r := DropWhile(lines, skip);
            r == lines[|lines| - |r|..] && forall k :: 0 <= k < |lines| - |r| ==> skip(lines[k])
  {
    if lines != [] && skip(lines[0]) {
      DropWhileSuffix(lines[1..], skip);
      var r := DropWhile(lines, skip);
      forall k | 1 <= k < |lines| - |r| ensures skip(lines[k]) {
        assert lines[k] == lines[1..][k - 1];
      }
    }
  }

  /** Accepted lines put in front are dropped again. */
  lemma {:induction false} DropWhilePrefix(skipped: seq<string>, lines: seq<string>, skip: string -> bool)
    requires forall k :: 0 <= k < |skipped| ==> skip(skipped[k])
    ensures DropWhile(skipped + lines, skip) == DropWhile(lines, skip)
    decreases |skipped|
  {
    if skipped != [] {
      assert (skipped + lines)[1..] == skipped[1..] + lines;
      DropWhilePrefix(skipped[1..], lines, skip);
    } else {
      assert skipped + lines == lines;
    }
  }

  const AuthorMissing: string := "Missing " + "author (or wrong format)" + " in docstring\n"
  const DateMissing: string := "Missing " + "date (or wrong format)" + " in docstring\n"
  const DescriptionMissing: string := "Missing " + "one sentence description of module" + " in docstring\n"
  const NotClosed: string := "Header comments not closed! Any feedback after this is useless!"
  const HeaderGood: string := "Header comments are good\n"
  const BlankFile: string := "Your file is blank... double check WHICh file you've uploaded"

  /** `\d\d/\d\d/\d\d\d\d` at `i`. */
  predicate DateAt(s: string, i: nat)
  {
    i + 10 <= |s| && s[i + 2] == '/' && s[i + 5] == '/'
    && forall k :: i <= k < i + 10 && k != i + 2 && k != i + 5 ==> IsDigit(s[k])
  }

  const BadNamesPrefix: string := "There are variable names that do not follow class conventions:\t"

  /** Level 4 when every extracted name follows the casing rule, otherwise 2 with the
      offending names listed comma-separated in file order. */
  function ConventionGrade(names: seq<string>, follows: string -> bool): (g: Grade)
    ensures g.level == 4.0 <==> forall n :: n in names ==> follows(n)
    ensures g.level == 2.0 || g.level == 4.0
    ensures g.level == 2.0 ==> g.comment == BadNamesPrefix + Join(Filter(names, n => !follows(n)), ",") + "\n"
  {
    var bad := Filter(names, n => !follows(n));
    assert (forall n :: n in names ==> follows(n)) <==> bad == [] by {
      if bad != [] {
        FilterMembers(names, n => !follows(n), bad[0]);
      } else {
        forall n | n in names ensures follows(n) {
          FilterMembers(names, n => !follows(n), n);
        }
      }
    }
    if bad != [] then
      Grade(2.0, BadNamesPrefix + Join(bad, ",") + "\n")
    else
      Grade(4.0, "Variable names are good\n")
  }

  /** `\[\s*\d+%\]` (or `\[\s?\d+%\]` when not `manySpaces`) at `i`: pytest's progress marker
      such as "[ 50%]". Spaces, digits and "%" are disjoint, so greedy matching decides it. */
  predicate ProgressAt(s: string, i: nat, manySpaces: bool)
  {
    i < |s| && s[i] == '[' &&
    var j := if manySpaces then Skip(s, i + 1, Space)
             else if i + 1 < |s| && IsSpace(s[i + 1]) then i + 2 else i + 1;
    var d := Skip(s, j, Digit);
    j < d && d + 1 < |s| && s[d] == '%' && s[d + 1] == ']'
  }

  /** `re.search` for the progress marker succeeds. */
  predicate HasProgressMarker(s: string, manySpaces: bool)
  {
    exists i: nat :: i < |s| && ProgressAt(s, i, manySpaces)
  }

  /** A line without "[" carries no progress marker. */
  lemma NoBracketNoMarker(s: string, manySpaces: bool)
    requires '[' !in s
    ensures !HasProgressMarker(s, manySpaces)
  {
  }

  /** The complaints about the three metadata lines of a header: one message per failing
      line, author first, then date, then description. */
  function MetadataComplaints(authorOk: bool, dateOk: bool, descriptionOk: bool): (c: string)
    ensures c == [] <==> authorOk && dateOk && descriptionOk
  {
    (if authorOk then "" else AuthorMissing) + (if dateOk then "" else DateMissing)
    + (if descriptionOk then "" else DescriptionMissing)
  }

  /** The author complaint comes first and the description complaint last, each present
      exactly when its line fails. */
  lemma MetadataComplaintsOrder(authorOk: bool, dateOk: bool, descriptionOk: bool)
    ensures var c := MetadataComplaints(authorOk, dateOk, descriptionOk);
            (StartsWith(c, AuthorMissing) <==> !authorOk) && (EndsWith(c, DescriptionMissing) <==> !descriptionOk)
  {
    var c := MetadataComplaints(authorOk, dateOk, descriptionOk);
    assert authorOk ==> !StartsWith(c, AuthorMissing) by {
      if authorOk && |c| >= |AuthorMissing| {
        assert AuthorMissing[8] == 'a';
        if !dateOk {
          assert c[8] == DateMissing[8] == 'd';
        } else {
          assert c == DescriptionMissing;
          assert c[8] == 'o';
        }
        assert c[..|AuthorMissing|][8] == c[8];
      }
    }
    assert descriptionOk ==> !EndsWith(c, DescriptionMissing) by {
      if descriptionOk && |c| >= |DescriptionMissing| {
        assert c == AuthorMissing + DateMissing;
        assert c[|c| - |DescriptionMissing|..][|DescriptionMissing| - 15] == c[|c| - 15] != DescriptionMissing[|DescriptionMissing| - 15];
      }
    }
  }

  /** The `comment +=` steps of `grade_header_comments` over the results of the author, date
      and description matches. */
  method CollectComplaints(authorOk: bool, dateOk: bool, descriptionOk: bool) returns (comment: string)
    ensures comment == MetadataComplaints(authorOk, dateOk, descriptionOk)
  {
    comment := "";
    if !authorOk {
      comment := comment + AuthorMissing;
    }
    assert comment == if authorOk then "" else AuthorMissing;
    var soFar := comment;
    if !dateOk {
      comment := comment + DateMissing;
    }
    assert comment == soFar + if dateOk then "" else DateMissing;
    soFar := comment;
    if !descriptionOk {
      comment := comment + DescriptionMissing;
    }
    assert comment == soFar + if descriptionOk then "" else DescriptionMissing;
  }

  /** The IPO decision table: nothing found is 0; input with processing and output, or input
      with the combined heading, is 4; anything else is 2. */
  function IpoGrade(hasInput: bool, hasProcessing: bool, hasOutput: bool, hasCombined: bool, eol: string): (g: Grade)
    ensures g.level == 0.0 <==> !(hasInput || hasProcessing || hasOutput || hasCombined)
    ensures g.level == 4.0 <==> hasInput && ((hasProcessing && hasOutput) || hasCombined)
    ensures g.level == 0.0 || g.level == 2.0 || g.level == 4.0
  {
    var valid1 := hasInput && hasProcessing && hasOutput;
    var valid2 := hasInput && hasCombined;
    if !(hasInput || hasProcessing || hasOutput || hasCombined) then Grade(0.0, "Missing IPO comments" + eol)
    else if !valid1 && !valid2 then Grade(2.0, "Incomplete or incorrect IPO comments" + eol)
    else Grade(4.0, "IPO comments are good" + eol)
  }

  /** `f"{' ' + title + ' ':=^80}\n"`: a section banner of the report. */
  function Banner(title: string): (b: string)
    ensures |title| <= 78 ==> |b| == 81 && b[80] == '\n'
    ensures |title| <= 78 ==>
              var k := (78 - |title|) / 2;
              b == seq(k, _ => '=') + " " + title + " " + seq(78 - |title| - k, _ => '=') + "\n"
  {
    Center(" " + title + " ", 80, '=') + "\n"
  }

  const CommentsBanner: string := Banner("Grading Comments")
  const VariablesBanner: string := Banner("Grading Variable Names")
  const CorrectnessBanner: string := Banner("Grading Correctness")

  /** `round((hc + ipo + var + 4 * ut) / 7, 1)`: correctness weighs four times each style check. */
  function WeightedLevel(hc: real, ipo: real, vn: real, ut: real): (r: real)
    ensures 0.0 <= hc <= 4.0 && 0.0 <= ipo <= 4.0 && 0.0 <= vn <= 4.0 && 0.0 <= ut <= 4.0
            ==> 0.0 <= r <= 4.0
  {
    var weighted := (hc * 1.0 + ipo * 1.0 + vn * 1.0 + ut * 4.0) / 7.0;
    if 0.0 <= hc <= 4.0 && 0.0 <= ipo <= 4.0 && 0.0 <= vn <= 4.0 && 0.0 <= ut <= 4.0 then
      RoundTenthsInScale(weighted);
      RoundTenths(weighted)
    else
      RoundTenths(weighted)
  }

  /** Raising any sub-score never lowers the overall level. */
  lemma WeightedLevelMonotone(hc: real, ipo: real, vn: real, ut: real, hc': real, ipo': real, vn': real, ut': real)
    requires hc <= hc' && ipo <= ipo' && vn <= vn' && ut <= ut'
    ensures WeightedLevel(hc, ipo, vn, ut) <= WeightedLevel(hc', ipo', vn', ut')
  {
    RoundTenthsMonotone((hc * 1.0 + ipo * 1.0 + vn * 1.0 + ut * 4.0) / 7.0, (hc' * 1.0 + ipo' * 1.0 + vn' * 1.0 + ut' * 4.0) / 7.0);
  }

  /** Four equal sub-scores of one decimal place give that same level overall. */
  lemma WeightedLevelUniform(k: int)
    ensures WeightedLevel(k as real / 10.0, k as real / 10.0, k as real / 10.0, k as real / 10.0) == k as real / 10.0
  {
    var v := k as real / 10.0;
    assert (v * 1.0 + v * 1.0 + v * 1.0 + v * 4.0) / 7.0 == v;
    RoundTenthsExact(k);
  }

  /** `grade_student`'s result: the weighted level, and the report with the header and IPO
      comments under the first banner, then the variable and correctness sections. */
  function StudentGrade(hc: Grade, ipo: Grade, vn: Grade, ut: Grade): (g: Grade)
    ensures 0.0 <= hc.level <= 4.0 && 0.0 <= ipo.level <= 4.0 && 0.0 <= vn.level <= 4.0 && 0.0 <= ut.level <= 4.0
            ==> 0.0 <= g.level <= 4.0
    ensures |g.comment| == 3 * 81 + |hc.comment| + |ipo.comment| + |vn.comment| + |ut.comment|
    ensures g.level == WeightedLevel(hc.level, ipo.level, vn.level, ut.level)
    ensures var a := 81 + |hc.comment|;
            var b := a + |ipo.comment|;
            var c := b + 81 + |vn.comment|;
            && g.comment[..81] == CommentsBanner && g.comment[81..a] == hc.comment && g.comment[a..b] == ipo.comment
            && g.comment[b..b + 81] == VariablesBanner && g.comment[b + 81..c] == vn.comment
            && g.comment[c..c + 81] == CorrectnessBanner && g.comment[c + 81..] == ut.comment
  {
    Grade(WeightedLevel(hc.level, ipo.level, vn.level, ut.level),
          CommentsBanner + hc.comment + ipo.comment + VariablesBanner + vn.comment + CorrectnessBanner + ut.comment)
  }

  /** The checks run header, IPO, variable names, unit tests in that order, so the first
      exception among them is the one `grade_student` raises. */
  function StudentResult(hc: Result<Grade>, ipo: Grade, vn: Grade, ut: Result<Grade>): (r: Result<Grade>)
    ensures r.Raised? <==> hc.Raised? || ut.Raised?
    ensures hc.Raised? ==> r == Raised(hc.error)
    ensures r.Ok? ==> 0.0 <= hc.value.level <= 4.0 && 0.0 <= ipo.level <= 4.0 && 0.0 <= vn.level <= 4.0 && 0.0 <= ut.value.level <= 4.0
                      ==> 0.0 <= r.value.level <= 4.0
  {
    if hc.Raised? then Raised(hc.error)
    else if ut.Raised? then Raised(ut.error)
    else Ok(StudentGrade(hc.value, ipo, vn, ut.value))
  }
}
