/** The ICS3U strategy: Python submissions, graded on their docstring header, snake_case
    variable names, "#" IPO comments and the pytest report of the unit tests. */
module ICS3UGrader {
  import opened PyText
  import opened Scoring
  import opened IpoPatterns
  import opened PyConventions

  /** What `grade_header_comments` returns, or the IndexError it raises on a short header. */
  function HeaderVerdict(fileContents: seq<string>): (r: Result<Grade>)
    ensures r.Ok? ==> r.value.level == 0.0 || r.value.level == 2.0 || r.value.level == 4.0
    ensures r.Ok? && r.value.level == 0.0 <==>
              var fc := DropWhile(fileContents, Blank); fc == [] || (fc[0] != DQ && fc[0] != SQ)
    ensures r.Ok? && r.value.level == 4.0 <==>
              var fc := DropWhile(fileContents, Blank);
              |fc| >= 5 && fc[0] == DQ && AuthorLine(fc[1]) && DateLine(fc[2]) && DescriptionLine(fc[3]) && fc[4] == DQ
    ensures r.Raised? <==>
              var fc := DropWhile(fileContents, Blank);
              fc != [] && fc[0] == DQ && |fc| < 5 && (|fc| < 4 || (AuthorLine(fc[1]) && DateLine(fc[2]) && DescriptionLine(fc[3])))
    ensures r.Raised? ==> r.error == IndexError
    ensures r.Ok? && r.value.level == 0.0 ==>
              r.value.comment == if DropWhile(fileContents, Blank) == [] then BlankFile else DocstringsMissing
    ensures r.Ok? && r.value.level == 2.0 ==>
              var fc := DropWhile(fileContents, Blank);
              fc != [] && (fc[0] == SQ ==> r.value.comment == WrongQuotes)
              && (fc[0] != SQ ==> |fc| >= 4 && r.value.comment == HeaderComplaint(fc[1], fc[2], fc[3]))
    ensures r.Ok? && r.value.level == 4.0 ==> r.value.comment == HeaderGood
  {
    var fc := DropWhile(fileContents, Blank);
    if fc == [] then Ok(Grade(0.0, BlankFile))
    else if fc[0] != DQ && fc[0] != SQ then Ok(Grade(0.0, DocstringsMissing))
    else if fc[0] == SQ then Ok(Grade(2.0, WrongQuotes))
    else if |fc| < 4 then Raised(IndexError)
    else
      var comment := MetadataComplaints(AuthorLine(fc[1]), DateLine(fc[2]), DescriptionLine(fc[3]));
      if comment != "" then Ok(Grade(2.0, comment))
      else if |fc| < 5 then Raised(IndexError)
      else if fc[4] != DQ then Ok(Grade(2.0, NotClosed + "\n"))
      else Ok(Grade(4.0, HeaderGood))
  }

  /** The level-2 comment of a `"""` header: the complaints about its metadata lines, or, when
      there are none, that it is not closed. */
  function HeaderComplaint(author: string, date: string, description: string): (c: string)
  {
    var complaints := MetadataComplaints(AuthorLine(author), DateLine(date), DescriptionLine(description));
    if complaints != "" then complaints else NotClosed + "\n"
  }

  /** Blank lines before the docstring do not change the header grade. */
  lemma LeadingBlankLinesIgnored(blanks: seq<string>, lines: seq<string>)
    requires forall k :: 0 <= k < |blanks| ==> Blank(blanks[k])
    ensures HeaderVerdict(blanks + lines) == HeaderVerdict(lines)
  {
    DropWhilePrefix(blanks, lines, Blank);
  }

  /** `grade_header_comments`: the checks in order, the complaints about the metadata lines
      collected into one comment. */
  method GradeHeaderComments(fileContents: seq<string>) returns (r: Result<Grade>)
    ensures r == HeaderVerdict(fileContents)
  {
    var fc := DropWhile(fileContents, Blank);
    if fc == [] {
      return Ok(Grade(0.0, BlankFile));
    }
    if fc[0] != DQ && fc[0] != SQ {
      return Ok(Grade(0.0, DocstringsMissing));
    }
    if fc[0] == SQ {
      return Ok(Grade(2.0, WrongQuotes));
    }
    if |fc| < 4 {
      return Raised(IndexError);
    }
    var comment := CollectComplaints(AuthorLine(fc[1]), DateLine(fc[2]), DescriptionLine(fc[3]));
    if comment != "" {
      return Ok(Grade(2.0, comment));
    }
    if |fc| < 5 {
      return Raised(IndexError);
    }
    if fc[4] != DQ {
      return Ok(Grade(2.0, NotClosed + "\n"));
    }
    return Ok(Grade(4.0, HeaderGood));
  }

  /** `__is_snake_case`: all capitals, or no capitals. */
  predicate IsSnakeCase(name: string)
  {
    PyIsUpper(name) || PyIsLower(name)
  }

  /** `grade_var_names`. */
  method GradeVarNames(fileContents: seq<string>) returns (g: Grade)
    ensures g == ConventionGrade(VarNames(fileContents), IsSnakeCase)
    ensures g.level == 4.0 <==> forall n :: n in VarNames(fileContents) ==> IsSnakeCase(n)
    ensures 2.0 <= g.level <= 4.0
  {
    var names := CollectVarNames(fileContents);
    g := ConventionGrade(names, IsSnakeCase);
  }

  /** The casing rule on the names of the variable-name fixtures. */
  lemma SnakeCaseExamples()
    ensures IsSnakeCase("greeting") && IsSnakeCase("MAX_SIZE") && IsSnakeCase("num_2")
    ensures !IsSnakeCase("Place") && !IsSnakeCase("numApples") && !IsSnakeCase("_1")
  {
    assert IsLowerChar("greeting"[0]);
    assert IsUpperChar("MAX_SIZE"[0]);
    assert IsLowerChar("num_2"[0]);
    assert IsUpperChar("Place"[0]) && IsLowerChar("Place"[1]);
    assert IsUpperChar("numApples"[3]) && IsLowerChar("numApples"[0]);
  }

  const Ipo: Style := Style("#", true, false)

  /** `grade_ipo_comments`: "#" headings, either case, not anchored at the end of the line. */
  function GradeIpoComments(fileContents: seq<string>): (g: Grade)
    ensures g.level == 0.0 || g.level == 2.0 || g.level == 4.0
    ensures g.level == 4.0 <==>
              Found(SearchText(fileContents), Ipo, Input)
              && ((Found(SearchText(fileContents), Ipo, Processing) && Found(SearchText(fileContents), Ipo, Output))
                  || Found(SearchText(fileContents), Ipo, ProcessingOutput))
  {
    GradeIpo(fileContents, Ipo, "\n")
  }

  /** "# input", "# processing" and "#output" are headings of the ICS3U style. */
  lemma IpoHeadingTexts()
    ensures HeadingAt("# input", 0, Ipo, Input)
    ensures HeadingAt("# processing", 0, Ipo, Processing)
    ensures HeadingAt("#output", 0, Ipo, Output)
  {
    assert CharsAt("# input", 0, "#") && CharsAt("# input", 3, "nput");
    assert CharsAt("# processing", 0, "#") && CharsAt("# processing", 3, "rocessing");
    assert CharsAt("#output", 0, "#") && CharsAt("#output", 2, "utput");
  }

  /** Headings on lines of their own are recognised, with or without a space after "#". */
  lemma IpoHeadingLines(fileContents: seq<string>, i: nat, p: nat, o: nat)
    requires i < |fileContents| && p < |fileContents| && o < |fileContents|
    requires Lower(Strip(fileContents[i])) == "# input"
    requires Lower(Strip(fileContents[p])) == "# processing"
    requires Lower(Strip(fileContents[o])) == "#output"
    ensures GradeIpoComments(fileContents).level == 4.0
  {
    IpoHeadingTexts();
    HeadingLineFound(fileContents, i, Ipo, Input);
    HeadingLineFound(fileContents, p, Ipo, Processing);
    HeadingLineFound(fileContents, o, Ipo, Output);
  }

  /** A file without a single "#" has no IPO comments. */
  lemma NoHashNoIpo(fileContents: seq<string>)
    requires forall l :: l in fileContents ==> '#' !in l
    ensures GradeIpoComments(fileContents).level == 0.0
  {
    forall h ensures !Found(SearchText(fileContents), Ipo, h) {
      NoMarkerInLines(fileContents, Ipo, h);
    }
  }

  const InfiniteLoop: string :=
    "\n\nYour code has some kind of infinite loop. Either that or your program is waiting for input that my grader won't give it!"
  const NoTestsGuidance: string :=
    "\n\nTwo possible problems. 1) Your code does not run (try running it in VS Code. If it doesn't run there, it won't run on pycs.) "
    + "2) We are in a functions unit and you didn't name your functions correctly. Please double check your function names. "
    + "3) You added your functions INSIDE of the main function. `def <func_name>` needs to be at the very left of the screen."

  /** `re.search(r"[\s*\d+%]", line)`: the pattern is a character class, so any whitespace,
      "*", digit, "+" or "%" anywhere makes the line count as a test line. */
  predicate IsTestLine(line: string)
  {
    exists k :: 0 <= k < |line| && (IsSpace(line[k]) || IsDigit(line[k]) || line[k] == '*' || line[k] == '+' || line[k] == '%')
  }

  /** The level and comment from a pytest report, counting the lines `counted` keeps; the
      `guidance` is the comment when no line counts. */
  function ReportGrade(output: string, counted: string -> bool, guidance: string): (g: Grade)
    ensures 0.0 <= g.level <= 4.0
  {
    var tests := Filter(SplitLines(output), counted);
    CountsGrade(CountContaining(tests, "PASSED"), CountContaining(tests, "FAILED"), output, guidance)
  }

  /** `grade_unit_test` as written: `None` stands for the pytest run that timed out. */
  function GradeUnitTestAsWritten(pytestOutput: Option<string>): (g: Grade)
    ensures 0.0 <= g.level <= 4.0
    ensures pytestOutput.None? ==> g == Grade(1.0, InfiniteLoop)
    ensures pytestOutput.Some? ==>
              var tests := Filter(SplitLines(pytestOutput.value), IsTestLine);
              var p, f := CountContaining(tests, "PASSED"), CountContaining(tests, "FAILED");
              (p + f == 0 ==> g == Grade(1.0, NoTestsGuidance))
              && (p + f > 0 ==> g == Grade(PassRatioLevel(p, f), pytestOutput.value))
  {
    match pytestOutput
    case None => Grade(1.0, InfiniteLoop)
    case Some(output) =>
      var tests := Filter(SplitLines(output), IsTestLine);
      CountsGradeCases(CountContaining(tests, "PASSED"), CountContaining(tests, "FAILED"), output, NoTestsGuidance);
      ReportGrade(output, IsTestLine, NoTestsGuidance)
  }

  /** A line with pytest's "[ NN%]" progress marker: the test lines the filter is after. */
  predicate IsProgressLine(line: string)
  {
    HasProgressMarker(line, true)
  }

  /** `grade_unit_test` counting only progress lines, as its filter evidently intends. */
  function GradeUnitTest(pytestOutput: Option<string>): (g: Grade)
    ensures 0.0 <= g.level <= 4.0
    ensures pytestOutput.None? ==> g == Grade(1.0, InfiniteLoop)
    ensures pytestOutput.Some? ==>
              var tests := Filter(SplitLines(pytestOutput.value), IsProgressLine);
              var p, f := CountContaining(tests, "PASSED"), CountContaining(tests, "FAILED");
              (p + f == 0 ==> g == Grade(1.0, NoTestsGuidance))
              && (p + f > 0 ==> g == Grade(PassRatioLevel(p, f), pytestOutput.value))
  {
    match pytestOutput
    case None => Grade(1.0, InfiniteLoop)
    case Some(output) =>
      var tests := Filter(SplitLines(output), IsProgressLine);
      CountsGradeCases(CountContaining(tests, "PASSED"), CountContaining(tests, "FAILED"), output, NoTestsGuidance);
      ReportGrade(output, IsProgressLine, NoTestsGuidance)
  }

  /** `grade_unit_test` including the copy of the test file next to the code, which raises
      FileNotFoundError when the test file is missing. */
  function UnitTestResult(testFileFound: bool, pytestOutput: Option<string>): (r: Result<Grade>)
    ensures r.Raised? <==> !testFileFound
    ensures r.Raised? ==> r.error == FileNotFoundError
    ensures r.Ok? ==> 0.0 <= r.value.level <= 4.0 && r.value == GradeUnitTestAsWritten(pytestOutput)
  {
    if testFileFound then Ok(GradeUnitTestAsWritten(pytestOutput)) else Raised(FileNotFoundError)
  }

  /** The grade of a report made of `lines`, from the counts of its counted lines. */
  lemma ReportLevel(lines: seq<string>, counted: string -> bool, guidance: string)
    requires forall k :: 0 <= k < |lines| ==> AllIn(lines[k], NonLineBreak)
    ensures var tests := Filter(lines, counted);
            var p, f := CountContaining(tests, "PASSED"), CountContaining(tests, "FAILED");
            ReportGrade(Unlines(lines), counted, guidance) == CountsGrade(p, f, Unlines(lines), guidance)
  {
    SplitLinesUnlines(lines);
  }

  /** Appending a line keeps every line free of line breaks. */
  lemma AppendLine(lines: seq<string>, l: string)
    requires forall k :: 0 <= k < |lines| ==> AllIn(lines[k], NonLineBreak)
    requires AllIn(l, NonLineBreak)
    ensures forall k :: 0 <= k < |lines + [l]| ==> AllIn((lines + [l])[k], NonLineBreak)
  {
    forall k | 0 <= k < |lines + [l]| ensures AllIn((lines + [l])[k], NonLineBreak) {
      if k < |lines| {
        assert (lines + [l])[k] == lines[k];
      }
    }
  }

  /** One more counted line: the PASSED and FAILED counts grow by what it contains. */
  lemma CountsOneMore(lines: seq<string>, l: string, counted: string -> bool, word: string)
    requires counted(l)
    ensures CountContaining(Filter(lines + [l], counted), word)
            == CountContaining(Filter(lines, counted), word) + (if Contains(l, word) then 1 else 0)
  {
    FilterAppend(lines, [l], counted);
    assert Filter([l], counted) == [l] by {
      assert [l][..0] == [];
    }
    CountContainingAppend(Filter(lines, counted), [l], word);
    assert [l][..0] == [];
  }

  /** A line the filter drops changes nothing in the counts. */
  lemma CountsDropped(lines: seq<string>, l: string, counted: string -> bool, word: string)
    requires !counted(l)
    ensures CountContaining(Filter(lines + [l], counted), word) == CountContaining(Filter(lines, counted), word)
  {
    FilterAppend(lines, [l], counted);
    assert Filter([l], counted) == [] by {
      assert [l][..0] == [];
    }
    assert Filter(lines, counted) + [] == Filter(lines, counted);
  }

  /** The counts of one more counted passing line grade no lower. */
  lemma OnePassingLine(lines: seq<string>, l: string, counted: string -> bool, before: string, after: string, guidance: string)
    requires counted(l) && Contains(l, "PASSED") && !Contains(l, "FAILED")
    ensures var tests, more := Filter(lines, counted), Filter(lines + [l], counted);
            CountsGrade(CountContaining(tests, "PASSED"), CountContaining(tests, "FAILED"), before, guidance).level
            <= CountsGrade(CountContaining(more, "PASSED"), CountContaining(more, "FAILED"), after, guidance).level
  {
    var tests, more := Filter(lines, counted), Filter(lines + [l], counted);
    var p, f := CountContaining(tests, "PASSED"), CountContaining(tests, "FAILED");
    CountsOneMore(lines, l, counted, "PASSED");
    CountsOneMore(lines, l, counted, "FAILED");
    assert CountContaining(more, "PASSED") == p + 1;
    assert CountContaining(more, "FAILED") == f;
    CountsGradeOnePass(p, f, before, after, guidance);
  }

  /** A report with one more counted passing line grades no lower. */
  lemma PassingReportNeverLowers(lines: seq<string>, l: string, counted: string -> bool, guidance: string)
    requires forall k :: 0 <= k < |lines| ==> AllIn(lines[k], NonLineBreak)
    requires AllIn(l, NonLineBreak) && counted(l) && Contains(l, "PASSED") && !Contains(l, "FAILED")
    ensures ReportGrade(Unlines(lines), counted, guidance).level
            <= ReportGrade(Unlines(lines + [l]), counted, guidance).level
  {
    AppendLine(lines, l);
    ReportLevel(lines, counted, guidance);
    ReportLevel(lines + [l], counted, guidance);
    OnePassingLine(lines, l, counted, Unlines(lines), Unlines(lines + [l]), guidance);
  }

  /** One more passing test, reported on its progress line, never lowers the unit-test
      level the program computes. */
  lemma PassingTestNeverLowers(lines: seq<string>, l: string)
    requires forall k :: 0 <= k < |lines| ==> AllIn(lines[k], NonLineBreak)
    requires AllIn(l, NonLineBreak) && IsProgressLine(l) && Contains(l, "PASSED") && !Contains(l, "FAILED")
    ensures GradeUnitTestAsWritten(Some(Unlines(lines))).level <= GradeUnitTestAsWritten(Some(Unlines(lines + [l]))).level
  {
    ProgressLineIsTestLine(l);
    PassingReportNeverLowers(lines, l, IsTestLine, NoTestsGuidance);
  }

  /** The same holds when only progress lines are counted. */
  lemma PassingTestNeverLowersIntended(lines: seq<string>, l: string)
    requires forall k :: 0 <= k < |lines| ==> AllIn(lines[k], NonLineBreak)
    requires AllIn(l, NonLineBreak) && IsProgressLine(l) && Contains(l, "PASSED") && !Contains(l, "FAILED")
    ensures GradeUnitTest(Some(Unlines(lines))).level <= GradeUnitTest(Some(Unlines(lines + [l]))).level
  {
    PassingReportNeverLowers(lines, l, IsProgressLine, NoTestsGuidance);
  }

  /** Every line with a progress marker also passes the character-class test. */
  lemma ProgressLineIsTestLine(line: string)
    requires IsProgressLine(line)
    ensures IsTestLine(line)
  {
    var i: nat :| i < |line| && ProgressAt(line, i, true);
    var d := Skip(line, Skip(line, i + 1, Space), Digit);
    assert line[d] == '%';
  }

  /** The character-class test keeps every progress line, and a line with whitespace. */
  lemma TestLineCounts(lines: seq<string>, l: string)
    requires forall k :: 0 <= k < |lines| ==> IsProgressLine(lines[k])
    requires Contains(l, "FAILED") && !Contains(l, "PASSED")
    requires exists k :: 0 <= k < |l| && IsSpace(l[k])
    ensures var tests := Filter(lines + [l], IsTestLine);
            CountContaining(tests, "PASSED") == CountContaining(lines, "PASSED")
            && CountContaining(tests, "FAILED") == CountContaining(lines, "FAILED") + 1
  {
    forall k | 0 <= k < |lines| ensures IsTestLine(lines[k]) {
      ProgressLineIsTestLine(lines[k]);
    }
    FilterKeepsAll(lines, IsTestLine);
    CountsOneMore(lines, l, IsTestLine, "PASSED");
    CountsOneMore(lines, l, IsTestLine, "FAILED");
  }

  /** As written, the character-class test also counts a line that mentions FAILED outside
      the progress lines, such as pytest's short test summary "FAILED t.py::test_2 - assert
      1 == 2": the failure is counted twice. */
  lemma SummaryLineCounted(lines: seq<string>, l: string, guidance: string)
    requires forall k :: 0 <= k < |lines| ==> AllIn(lines[k], NonLineBreak) && IsProgressLine(lines[k])
    requires AllIn(l, NonLineBreak) && Contains(l, "FAILED") && !Contains(l, "PASSED")
    requires exists k :: 0 <= k < |l| && IsSpace(l[k])
    ensures var p, f := CountContaining(lines, "PASSED"), CountContaining(lines, "FAILED");
            p + f > 0 ==> ReportGrade(Unlines(lines + [l]), IsTestLine, guidance).level == PassRatioLevel(p, f + 1)
  {
    var p, f := CountContaining(lines, "PASSED"), CountContaining(lines, "FAILED");
    AppendLine(lines, l);
    ReportLevel(lines + [l], IsTestLine, guidance);
    TestLineCounts(lines, l);
    CountsGradeCases(p, f + 1, Unlines(lines + [l]), guidance);
  }

  /** Counting progress lines only, as intended, the same summary line changes nothing. */
  lemma SummaryLineIgnored(lines: seq<string>, l: string, guidance: string)
    requires forall k :: 0 <= k < |lines| ==> AllIn(lines[k], NonLineBreak) && IsProgressLine(lines[k])
    requires AllIn(l, NonLineBreak) && '[' !in l
    ensures var p, f := CountContaining(lines, "PASSED"), CountContaining(lines, "FAILED");
            p + f > 0 ==> ReportGrade(Unlines(lines + [l]), IsProgressLine, guidance).level == PassRatioLevel(p, f)
  {
    FilterKeepsAll(lines, IsProgressLine);
    NoBracketNoMarker(l, true);
    AppendLine(lines, l);
    ReportLevel(lines + [l], IsProgressLine, guidance);
    CountsDropped(lines, l, IsProgressLine, "PASSED");
    CountsDropped(lines, l, IsProgressLine, "FAILED");
  }

  /** With one passing and one failing test, the repeated summary line drops the level from
      2.0 to 1.3. */
  lemma SummaryLineExample()
    ensures PassRatioLevel(1, 1) == 2.0 && PassRatioLevel(1, 2) == 1.3
  {
    PassRatioFixtures();
    assert (1.0 / 3.0 * 4.0 * 10.0 + 0.5).Floor == 13;
  }

  /** A filter that keeps every line keeps them all, in order. */
  lemma {:induction false} FilterKeepsAll(lines: seq<string>, keep: string -> bool)
    requires forall k :: 0 <= k < |lines| ==> keep(lines[k])
    ensures Filter(lines, keep) == lines
  {
    if lines != [] {
      FilterKeepsAll(lines[..|lines| - 1], keep);
      assert lines[..|lines| - 1] + [lines[|lines| - 1]] == lines;
    }
  }

  /** `grade_student`: the four checks in order, the weighted level and the bannered report. */
  method GradeStudent(fileContents: seq<string>, testFileFound: bool, pytestOutput: Option<string>) returns (r: Result<Grade>)
    ensures r == StudentResult(HeaderVerdict(fileContents), GradeIpoComments(fileContents),
                               ConventionGrade(VarNames(fileContents), IsSnakeCase), UnitTestResult(testFileFound, pytestOutput))
    ensures r.Raised? <==> HeaderVerdict(fileContents).Raised? || !testFileFound
    ensures r.Ok? ==> 0.0 <= r.value.level <= 4.0
  {
    var hc := GradeHeaderComments(fileContents);
    if hc.Raised? {
      return Raised(hc.error);
    }
    var ipo := GradeIpoComments(fileContents);
    var vn := GradeVarNames(fileContents);
    var ut := UnitTestResult(testFileFound, pytestOutput);
    if ut.Raised? {
      return Raised(ut.error);
    }
    r := Ok(StudentGrade(hc.value, ipo, vn, ut.value));
  }
}
