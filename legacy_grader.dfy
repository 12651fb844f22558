/** The module-level grader that predates the grading strategies: free-function versions of
    the header, variable-name and IPO checks, the sanitising of a crashed program's error
    output, the comparison of a program's output with the expected text, and the unscaled
    pytest score. */
module LegacyGrader {
  import opened PyText
  import opened Scoring
  import opened IpoPatterns
  import opened PyConventions
  import ICS3UGrader

  // ---------------------------------------------------------------- header comments

  /** The level-2 comment of a `"""` header: the complaints about its metadata lines, or,
      when there are none, that it is not closed (without the trailing line break of the
      strategies' message). */
  function HeaderComplaint(author: string, date: string, description: string): (c: string)
  {
    var complaints := MetadataComplaints(AuthorLine(author), DateLine(date), DescriptionLine(description));
    if complaints != "" then complaints else NotClosed
  }

  /** The header checks applied to `fc` from its first line on. The second closing test of
      the source (a "'''" opener without a "'''" closer) can never be reached, because a
      "'''" opener has already been answered with level 2. */
  function HeaderVerdict(fc: seq<string>): (r: Result<Grade>)
    ensures r.Ok? ==> r.value.level == 0.0 || r.value.level == 2.0 || r.value.level == 4.0
    ensures r.Ok? && r.value.level == 0.0 <==> fc != [] && fc[0] != DQ && fc[0] != SQ
    ensures r.Ok? && r.value.level == 4.0 <==>
              |fc| >= 5 && fc[0] == DQ && AuthorLine(fc[1]) && DateLine(fc[2]) && DescriptionLine(fc[3]) && fc[4] == DQ
    ensures r.Raised? <==> fc == [] || (fc[0] == DQ && |fc| < 5
                                        && (|fc| < 4 || (AuthorLine(fc[1]) && DateLine(fc[2]) && DescriptionLine(fc[3]))))
    ensures r.Raised? ==> r.error == IndexError
    ensures r.Ok? && r.value.level == 0.0 ==> r.value.comment == DocstringsMissing
    ensures r.Ok? && r.value.level == 2.0 ==>
              fc != [] && (fc[0] == SQ ==> r.value.comment == WrongQuotes)
              && (fc[0] != SQ ==> |fc| >= 4 && r.value.comment == HeaderComplaint(fc[1], fc[2], fc[3]))
    ensures r.Ok? && r.value.level == 4.0 ==> r.value.comment == HeaderGood
  {
    if fc == [] then Raised(IndexError)
    else if fc[0] != DQ && fc[0] != SQ then Ok(Grade(0.0, DocstringsMissing))
    else if fc[0] == SQ then Ok(Grade(2.0, WrongQuotes))
    else if |fc| < 4 then Raised(IndexError)
    else
      var comment := MetadataComplaints(AuthorLine(fc[1]), DateLine(fc[2]), DescriptionLine(fc[3]));
      if comment != "" then Ok(Grade(2.0, comment))
      else if |fc| < 5 then Raised(IndexError)
      else if fc[4] != DQ then Ok(Grade(2.0, NotClosed))
      else Ok(Grade(4.0, HeaderGood))
  }

  /** The checks of `_check_header_comments` in order, the complaints collected by `+=`. */
  method CheckHeaderLines(fc: seq<string>) returns (r: Result<Grade>)
    ensures r == HeaderVerdict(fc)
  {
    if fc == [] {
      return Raised(IndexError);
    }
    if fc[0] != DQ && fc[0] != SQ {
      return Ok(Grade(0.0, DocstringsMissing));
    }
    if fc[0] == SQ {
      return Ok(Grade(2.0, WrongQuotes));
    }
    if |fc| < 4 {
      return Raised(IndexError);
    }
    var comment := CollectComplaints(AuthorLine(fc[1]), DateLine(fc[2]), DescriptionLine(fc[3]));
    if comment != "" {
      return Ok(Grade(2.0, comment));
    }
    if |fc| < 5 {
      return Raised(IndexError);
    }
    if fc[4] != DQ {
      return Ok(Grade(2.0, NotClosed));
    }
    return Ok(Grade(4.0, HeaderGood));
  }

  /** `_check_header_comments` as written: the result of `dropwhile` is thrown away, so the
      checks see the lines exactly as given. */
  method CheckHeaderCommentsAsWritten(fileContents: seq<string>) returns (r: Result<Grade>)
    ensures r == HeaderVerdict(fileContents)
  {
    r := CheckHeaderLines(fileContents);
  }

  /** `_check_header_comments` with the leading blank lines skipped, as its own comment says. */
  method CheckHeaderComments(fileContents: seq<string>) returns (r: Result<Grade>)
    ensures r == HeaderVerdict(DropWhile(fileContents, Blank))
  {
    var fc := DropWhile(fileContents, Blank);
    r := CheckHeaderLines(fc);
  }

  /** As written, one blank line before the docstring makes the header "missing", whereas
      skipping blank lines grades the docstring itself, which is never "missing". */
  lemma BlankLineHidesDocstring(lines: seq<string>)
    requires lines != [] && lines[0] == DQ
    ensures HeaderVerdict([""] + lines) == Ok(Grade(0.0, DocstringsMissing))
    ensures HeaderVerdict(DropWhile([""] + lines, Blank)) == HeaderVerdict(lines)
    ensures !(HeaderVerdict(lines).Ok? && HeaderVerdict(lines).value.level == 0.0)
  {
    assert ([""] + lines)[0] == "";
    StripTrims("");
    StripTrims(DQ);
    assert !IsSpace(DQ[0]);
    assert ([""] + lines)[1..] == lines;
  }

  /** Skipping blank lines, any number of them before the docstring change nothing. */
  lemma LeadingBlankLinesIgnored(blanks: seq<string>, lines: seq<string>)
    requires forall k :: 0 <= k < |blanks| ==> Blank(blanks[k])
    ensures HeaderVerdict(DropWhile(blanks + lines, Blank)) == HeaderVerdict(DropWhile(lines, Blank))
  {
    DropWhilePrefix(blanks, lines, Blank);
  }

  // ---------------------------------------------------------------- variable names

  const NamesGood: string := "Variable names are good"
  const NamesBad: string := "There are variable names that do not follow class conventions"

  /** `all(var.islower() for var in names)`, left to right. */
  predicate AllLower(names: seq<string>)
    decreases |names|
  {
    names == [] || (PyIsLower(names[0]) && AllLower(names[1..]))
  }

  /** `AllLower` holds exactly when every name is lower-case. */
  lemma {:induction false} AllLowerEvery(names: seq<string>)
    ensures AllLower(names) <==> forall n :: n in names ==> PyIsLower(n)
    decreases |names|
  {
    if names != [] {
      AllLowerEvery(names[1..]);
      assert forall n :: n in names <==> n == names[0] || n in names[1..];
    }
  }

  /** Level 4 when every name is lower-case (none at all included), otherwise 1; there is no
      exemption for names in capitals and no list of the offending names. */
  function LowerCaseGrade(names: seq<string>): (g: Grade)
    ensures g.level == 1.0 || g.level == 4.0
    ensures g.level == 4.0 <==> forall n :: n in names ==> PyIsLower(n)
    ensures g.level == 1.0 ==> g.comment == NamesBad
  {
    AllLowerEvery(names);
    if AllLower(names) then Grade(4.0, NamesGood) else Grade(1.0, NamesBad)
  }

  /** `_check_variable_names`. */
  method CheckVariableNames(fileContents: seq<string>) returns (g: Grade)
    ensures g == LowerCaseGrade(VarNames(fileContents))
  {
    var names := CollectVarNames(fileContents);
    g := LowerCaseGrade(names);
  }

  /** Whatever this check accepts, the ICS3U snake-case rule accepts too. */
  lemma LowerCaseIsSnakeCase(names: seq<string>)
    ensures LowerCaseGrade(names).level == 4.0 ==> ConventionGrade(names, ICS3UGrader.IsSnakeCase).level == 4.0
  {
  }

  /** A constant in capitals is refused here but accepted by the ICS3U rule. */
  lemma CapitalsRefused(name: string)
    requires name != [] && forall k :: 0 <= k < |name| ==> IsUpperChar(name[k])
    ensures LowerCaseGrade([name]).level == 1.0
    ensures ConventionGrade([name], ICS3UGrader.IsSnakeCase).level == 4.0
  {
    assert !PyIsLower(name) by {
      assert forall k :: 0 <= k < |name| ==> !IsLowerChar(name[k]);
    }
    assert IsUpperChar(name[0]);
    assert forall n :: n in [name] ==> n == name;
  }

  /** Two assignments, the second to a capitalised name, grade 1. */
  lemma CapitalisedAssignment(first: string, v1: string, second: string, v2: string)
    requires first != [] && forall k :: 0 <= k < |first| ==> IsLowerChar(first[k])
    requires second != [] && IsUpperChar(second[0]) && forall k :: 0 <= k < |second| ==> IsWordChar(second[k])
    ensures LowerCaseGrade(VarNames([first + " = " + v1, second + " = " + v2])).level == 1.0
  {
    TwoAssignments(first, v1, second, v2);
    assert second in [first, second];
  }

  /** The names recorded for two unindented simple assignments. */
  lemma TwoAssignments(first: string, v1: string, second: string, v2: string)
    requires first != [] && forall k :: 0 <= k < |first| ==> IsWordChar(first[k])
    requires second != [] && forall k :: 0 <= k < |second| ==> IsWordChar(second[k])
    ensures VarNames([first + " = " + v1, second + " = " + v2]) == [first, second]
  {
    SimpleAssignment("", first, v1);
    SimpleAssignment("", second, v2);
    assert "" + first == first && "" + second == second;
    PairOfNames(first + " = " + v1, second + " = " + v2, first, second);
  }

  lemma PairOfNames(l1: string, l2: string, n1: string, n2: string)
    requires AssignedName(l1) == Some(n1) && AssignedName(l2) == Some(n2)
    ensures VarNames([l1, l2]) == [n1, n2]
  {
    assert [l1, l2][..1] == [l1];
  }

  // ---------------------------------------------------------------- IPO comments

  /** "#" headings, lower case only, each on a line of its own. */
  const LegacyIpo: Style := Style("#", false, true)

  /** `_check_ipo`. */
  function CheckIpo(fileContents: seq<string>): (g: Grade)
    ensures g.level == 0.0 || g.level == 2.0 || g.level == 4.0
    ensures g.level == 0.0 <==> forall h :: !Found(SearchText(fileContents), LegacyIpo, h)
    ensures g.level == 4.0 <==>
              Found(SearchText(fileContents), LegacyIpo, Input)
              && ((Found(SearchText(fileContents), LegacyIpo, Processing) && Found(SearchText(fileContents), LegacyIpo, Output))
                  || Found(SearchText(fileContents), LegacyIpo, ProcessingOutput))
  {
    GradeIpo(fileContents, LegacyIpo, "")
  }

  /** A heading of this style is a heading of the ICS3U style. */
  lemma LegacyHeadingIsPythonHeading(t: string, p: nat, h: Heading)
    requires HeadingAt(t, p, LegacyIpo, h)
    ensures HeadingAt(t, p, ICS3UGrader.Ipo, h)
  {
  }

  /** The ICS3U check is at least as lenient: full marks here are full marks there, and no
      heading there is no heading here. */
  lemma IpoNoMoreLenient(fileContents: seq<string>)
    ensures CheckIpo(fileContents).level == 4.0 ==> ICS3UGrader.GradeIpoComments(fileContents).level == 4.0
    ensures ICS3UGrader.GradeIpoComments(fileContents).level == 0.0 ==> CheckIpo(fileContents).level == 0.0
  {
    var t := SearchText(fileContents);
    forall h | Found(t, LegacyIpo, h) ensures Found(t, ICS3UGrader.Ipo, h) {
      var p: nat :| p <= |t| && LineStart(t, p) && HeadingAt(t, p, LegacyIpo, h);
      LegacyHeadingIsPythonHeading(t, p, h);
    }
  }

  // ---------------------------------------------------------------- error output

  /** The two patterns `_safe_decode_stderr` searches for: `".*\.py"`, the quoted path of
      the crashed file, and `\d{9}_[a-z_]+.py`, the file name the server gave it. */
  datatype Pattern = QuotedPath | FileName

  const PyQuote: string := ".py\""

  /** Where the line holding position `i` ends: the next "\n" or the end of the text. The
      regex `.` matches anything up to there. */
  function NewlineFrom(s: string, i: nat): (j: nat)
    requires i <= |s|
    ensures i <= j <= |s| && (j < |s| ==> s[j] == '\n')
    ensures forall k :: i <= k < j ==> s[k] != '\n'
    decreases |s| - i
  {
    if i == |s| || s[i] == '\n' then i else NewlineFrom(s, i + 1)
  }

  /** The last occurrence of `pat` starting at or after `lo` and ending by `hi`. */
  function LastOccurrence(s: string, pat: string, lo: nat, hi: nat): (r: Option<nat>)
    requires hi <= |s|
    ensures r.Some? ==> lo <= r.value && r.value + |pat| <= hi && OccursAt(s, pat, r.value)
    ensures r.Some? ==> forall i: nat :: r.value < i && i + |pat| <= hi ==> !OccursAt(s, pat, i)
    ensures r.None? ==> forall i: nat :: lo <= i && i + |pat| <= hi ==> !OccursAt(s, pat, i)
    decreases hi
  {
    if hi < lo + |pat| then None
    else if OccursAt(s, pat, hi - |pat|) then Some(hi - |pat|)
    else LastOccurrence(s, pat, lo, hi - 1)
  }

  /** Where `".*\.py"` matched from `b` ends. The greedy `.*` runs to the end of the line and
      backs off to the last `.py"` on it. */
  function PathAt(s: string, b: nat): (r: Option<nat>)
    requires b < |s|
    ensures r.Some? ==> s[b] == '"' && b + 5 <= r.value <= NewlineFrom(s, b + 1) && OccursAt(s, PyQuote, r.value - 4)
    ensures r.Some? ==> forall i: nat :: r.value - 4 < i && i + 4 <= NewlineFrom(s, b + 1) ==> !OccursAt(s, PyQuote, i)
    ensures r.None? <==> s[b] != '"'
                         || forall i: nat :: b + 1 <= i && i + 4 <= NewlineFrom(s, b + 1) ==> !OccursAt(s, PyQuote, i)
  {
    if s[b] != '"' then None
    else
      match LastOccurrence(s, PyQuote, b + 1, NewlineFrom(s, b + 1))
      case None => None
      case Some(i) => Some(i + 4)
  }

  predicate IsSnakeChar(c: char)
  {
    IsLowerChar(c) || c == '_'
  }

  /** The end of the run of `[a-z_]` characters from `i`. */
  function SnakeRun(s: string, i: nat): (j: nat)
    requires i <= |s|
    ensures i <= j <= |s| && (j < |s| ==> !IsSnakeChar(s[j]))
    ensures forall k :: i <= k < j ==> IsSnakeChar(s[k])
    decreases |s| - i
  {
    if i < |s| && IsSnakeChar(s[i]) then SnakeRun(s, i + 1) else i
  }

  /** `.py` at `l`: any character but "\n", then "py". */
  predicate DotPyAt(s: string, l: nat)
  {
    l + 3 <= |s| && s[l] != '\n' && s[l + 1] == 'p' && s[l + 2] == 'y'
  }

  /** The largest `l` between `lo` and `hi` with `.py` at `l`. */
  function LastDotPy(s: string, lo: nat, hi: nat): (r: Option<nat>)
    ensures r.Some? ==> lo <= r.value <= hi && DotPyAt(s, r.value)
    ensures r.Some? ==> forall l: nat :: r.value < l <= hi ==> !DotPyAt(s, l)
    ensures r.None? ==> forall l: nat :: lo <= l <= hi ==> !DotPyAt(s, l)
    decreases hi
  {
    if hi < lo then None
    else if DotPyAt(s, hi) then Some(hi)
    else if hi == lo then None
    else LastDotPy(s, lo, hi - 1)
  }

  /** `\d{9}_` at `b`. */
  predicate StudentPrefixAt(s: string, b: nat)
  {
    b + 10 <= |s| && s[b + 9] == '_' && forall k :: b <= k < b + 9 ==> IsDigit(s[k])
  }

  /** Where `\d{9}_[a-z_]+.py` matched from `b` ends. The greedy `[a-z_]+` backs off to the
      last place where `.py` follows. */
  function NameAt(s: string, b: nat): (r: Option<nat>)
    requires b < |s|
    ensures r.Some? ==> StudentPrefixAt(s, b) && b + 14 <= r.value <= |s| && DotPyAt(s, r.value - 3)
    ensures r.Some? ==> r.value - 3 <= SnakeRun(s, b + 10)
    ensures r.Some? ==> forall l: nat :: r.value - 3 < l <= SnakeRun(s, b + 10) ==> !DotPyAt(s, l)
    ensures r.None? <==> !StudentPrefixAt(s, b) || forall l: nat :: b + 11 <= l <= SnakeRun(s, b + 10) ==> !DotPyAt(s, l)
  {
    if !StudentPrefixAt(s, b) then None
    else
      match LastDotPy(s, b + 11, SnakeRun(s, b + 10))
      case None => None
      case Some(l) => Some(l + 3)
  }

  /** Where pattern `p` matched from `b` ends. */
  function MatchAt(s: string, b: nat, p: Pattern): (r: Option<nat>)
    requires b < |s|
    ensures r.Some? ==> b + 5 <= r.value <= |s|
  {
    match p
    case QuotedPath => PathAt(s, b)
    case FileName => NameAt(s, b)
  }

  /** `re.search(p, s)` from `from` on: the leftmost match, as its start and end. */
  function Search(s: string, from: nat, p: Pattern): (r: Option<(nat, nat)>)
    requires from <= |s|
    ensures r.Some? ==> from <= r.value.0 < |s| && MatchAt(s, r.value.0, p) == Some(r.value.1)
    ensures r.Some? ==> forall b :: from <= b < r.value.0 ==> MatchAt(s, b, p).None?
    ensures r.None? ==> forall b :: from <= b < |s| ==> MatchAt(s, b, p).None?
    decreases |s| - from
  {
    if from == |s| then None
    else
      match MatchAt(s, from, p)
      case Some(e) => Some((from, e))
      case None => Search(s, from + 1, p)
  }

  /** `_safe_decode_stderr`: text that mentions no "File" is returned unchanged; otherwise
      every occurrence of the first quoted path is replaced by the first server file name,
      and a missing path or file name makes `.span()` fail on `None`. */
  function SafeDecodeStderr(stderr: string): (r: Result<string>)
    ensures !Contains(stderr, "File") ==> r == Ok(stderr)
    ensures r.Raised? <==> Contains(stderr, "File") && (Search(stderr, 0, QuotedPath).None? || Search(stderr, 0, FileName).None?)
    ensures r.Raised? ==> r.error == AttributeError
  {
    if !Contains(stderr, "File") then Ok(stderr)
    else
      match (Search(stderr, 0, QuotedPath), Search(stderr, 0, FileName))
      case (Some((b, e)), Some((b2, e2))) => Ok(ReplaceAll(stderr, stderr[b..e], stderr[b2..e2]))
      case _ => Raised(AttributeError)
  }

  /** An occurrence at `i` of the text between `b` and `e` repeats its characters. */
  lemma SameChar(s: string, b: nat, e: nat, i: nat, q: nat)
    requires b <= e <= |s| && OccursAt(s, s[b..e], i) && q < e - b
    ensures s[i + q] == s[b + q]
  {
    assert s[i..i + (e - b)][q] == s[b..e][q];
  }

  /** The line of an occurrence of a matched path's text reaches at least as far as it. */
  lemma {:induction false} OccurrenceOnOneLine(s: string, b: nat, e: nat, i: nat)
    requires b < |s| && PathAt(s, b) == Some(e)
    requires i < |s| && OccursAt(s, s[b..e], i)
    ensures i + (e - b) <= NewlineFrom(s, i + 1)
  {
    var hi := NewlineFrom(s, i + 1);
    if hi < i + (e - b) {
      SameChar(s, b, e, i, hi - i);
      assert false;
    }
  }

  /** An occurrence of a matched path's text ends in `.py"` too. */
  lemma {:induction false} OccurrenceEndsInPy(s: string, b: nat, e: nat, i: nat)
    requires b < |s| && PathAt(s, b) == Some(e)
    requires i < |s| && OccursAt(s, s[b..e], i)
    ensures OccursAt(s, PyQuote, i + (e - b) - 4)
  {
    var n := e - b;
    assert s[i..i + n][n - 4..] == s[i + n - 4..i + n];
    assert s[b..e][n - 4..] == s[e - 4..e];
  }

  /** Before a match of the path pattern, the matched text cannot occur: an occurrence would
      start a match of its own. */
  lemma {:induction false} PathTextMatches(s: string, b: nat, e: nat, i: nat)
    requires b < |s| && PathAt(s, b) == Some(e)
    requires i < |s| && PathAt(s, i).None?
    ensures !OccursAt(s, s[b..e], i)
  {
    if OccursAt(s, s[b..e], i) {
      SameChar(s, b, e, i, 0);
      OccurrenceOnOneLine(s, b, e, i);
      OccurrenceEndsInPy(s, b, e, i);
      assert false;
    }
  }

  /** The first match of the path pattern is the first occurrence of its text. */
  lemma {:induction false} PathFirstOccurrence(s: string, b: nat, e: nat)
    requires Search(s, 0, QuotedPath) == Some((b, e))
    ensures OccursAt(s, s[b..e], b)
    ensures forall i: nat :: i < b ==> !OccursAt(s, s[b..e], i)
  {
    forall i: nat | i < b ensures !OccursAt(s, s[b..e], i) {
      assert MatchAt(s, i, QuotedPath).None?;
      PathTextMatches(s, b, e, i);
    }
  }

  /** With both patterns found, every occurrence of the path is replaced by the name. */
  lemma DecodeReplaces(stderr: string, b: nat, e: nat, b2: nat, e2: nat)
    requires Contains(stderr, "File")
    requires Search(stderr, 0, QuotedPath) == Some((b, e)) && Search(stderr, 0, FileName) == Some((b2, e2))
    ensures b < e <= |stderr| && b2 < e2 <= |stderr|
    ensures SafeDecodeStderr(stderr) == Ok(ReplaceAll(stderr, stderr[b..e], stderr[b2..e2]))
  {
  }

  /** The sanitised text: everything before the first quoted path, the file name in its
      place, and the same replacement in the rest. */
  lemma SanitizedText(stderr: string, b: nat, e: nat, b2: nat, e2: nat)
    requires Contains(stderr, "File")
    requires Search(stderr, 0, QuotedPath) == Some((b, e)) && Search(stderr, 0, FileName) == Some((b2, e2))
    ensures b < e <= |stderr| && b2 < e2 <= |stderr|
    ensures SafeDecodeStderr(stderr) == Ok(stderr[..b] + stderr[b2..e2] + ReplaceAll(stderr[e..], stderr[b..e], stderr[b2..e2]))
  {
    DecodeReplaces(stderr, b, e, b2, e2);
    PathFirstOccurrence(stderr, b, e);
    ReplaceFromFirst(stderr, stderr[b..e], stderr[b2..e2], b);
  }

  // ---------------------------------------------------------------- program output

  /** How the expected output is compared with what the program printed. */
  datatype MatchType = Contained | Exact

  const TimedOutMessage: string :=
    "Your code timed out. Either you have an infinite loop or your are using an input() function without one being required"
  const OutputsMatch: string := "The outpts match. Nice!"

  /** The program ran to completion and printed what was expected: somewhere in its output,
      or exactly once surrounding whitespace is stripped. */
  predicate OutputAccepted(run: Run, output: string, matchType: MatchType)
  {
    run.Exited? && run.returncode == 0
    && (matchType == Contained ==> Contains(run.stdout, output))
    && (matchType == Exact ==> output == Strip(run.stdout))
  }

  /** The decision part of `grade_io`, given the captured run of the student's program. */
  function GradeIo(run: Run, output: string, matchType: MatchType): (r: Result<Grade>)
    ensures r.Ok? ==> r.value.level == 1.0 || r.value.level == 4.0
    ensures r.Ok? && r.value.level == 4.0 <==> OutputAccepted(run, output, matchType)
    ensures r.Ok? && r.value.level == 4.0 ==> r.value.comment == OutputsMatch
    ensures r.Raised? <==> run.Exited? && run.returncode != 0 && SafeDecodeStderr(run.stderr).Raised?
    ensures r.Raised? ==> r.error == AttributeError
    ensures run.Exited? && run.returncode != 0 && SafeDecodeStderr(run.stderr).Ok?
            ==> r == Ok(Grade(1.0, SafeDecodeStderr(run.stderr).value))
  {
    match run
    case Timeout => Ok(Grade(1.0, TimedOutMessage))
    case Exited(code, stdout, stderr) =>
      if code != 0 then
        match SafeDecodeStderr(stderr)
        case Raised(e) => Raised(e)
        case Ok(text) => Ok(Grade(1.0, text))
      else if matchType == Contained && !Contains(stdout, output) then
        Ok(Grade(1.0, "The output " + output + " does not match the output " + stdout))
      else if matchType == Exact && output != Strip(stdout) then
        Ok(Grade(1.0, "The output " + output + " is not exactly the same as " + stdout))
      else Ok(Grade(4.0, OutputsMatch))
  }

  /** Output that matches exactly also matches by containment. */
  lemma ExactImpliesContained(run: Run, output: string)
    ensures GradeIo(run, output, Exact) == Ok(Grade(4.0, OutputsMatch)) ==> GradeIo(run, output, Contained) == Ok(Grade(4.0, OutputsMatch))
  {
    if GradeIo(run, output, Exact) == Ok(Grade(4.0, OutputsMatch)) {
      var s := run.stdout;
      var a := Skip(s, 0, Space);
      var b := TrimEnd(s, a, |s|);
      assert output == s[a..b];
      assert OccursAt(s, output, a);
    }
  }

  // ---------------------------------------------------------------- pytest

  /** A line with the progress marker `\[\s?\d+%\]`. */
  predicate IsPercentLine(line: string)
  {
    HasProgressMarker(line, false)
  }

  /** The share of the counted outcomes that passed, or the ZeroDivisionError of a report
      without any. */
  function ScoreOf(tests: seq<string>): (r: Result<real>)
    ensures r.Raised? <==> CountContaining(tests, "PASSED") + CountContaining(tests, "FAILED") == 0
    ensures r.Raised? ==> r.error == ZeroDivisionError
    ensures r.Ok? ==> 0.0 <= r.value <= 1.0
    ensures var p, f := CountContaining(tests, "PASSED"), CountContaining(tests, "FAILED");
            r.Ok? ==> IsShare(r.value, p, f)
  {
    var failed := CountContaining(tests, "FAILED");
    var passed := CountContaining(tests, "PASSED");
    if passed + failed == 0 then Raised(ZeroDivisionError) else Ok(Share(passed, failed))
  }

  /** The line-counting part of `grade_pytest`: the share of counted outcomes that passed,
      not scaled to levels, with no guard against a report without outcomes. Copying the
      test file next to the code raises FileNotFoundError when it is missing. */
  function PytestScore(testFileFound: bool, pytestOutput: string): (r: Result<real>)
    ensures !testFileFound ==> r == Raised(FileNotFoundError)
    ensures var tests := Filter(SplitLines(pytestOutput), IsPercentLine);
            r.Raised? <==> !testFileFound || CountContaining(tests, "PASSED") + CountContaining(tests, "FAILED") == 0
    ensures testFileFound && r.Raised? ==> r.error == ZeroDivisionError
    ensures r.Ok? ==> 0.0 <= r.value <= 1.0
    ensures var tests := Filter(SplitLines(pytestOutput), IsPercentLine);
            var p, f := CountContaining(tests, "PASSED"), CountContaining(tests, "FAILED");
            r.Ok? ==> IsShare(r.value, p, f)
  {
    if !testFileFound then Raised(FileNotFoundError)
    else
      var tests := Filter(SplitLines(pytestOutput), IsPercentLine);
      ScoreOf(tests)
  }

  /** `score` is the share `passed / (passed + failed)`: scaled back by the number of
      outcomes, it is the number that passed. */
  predicate IsShare(score: real, passed: nat, failed: nat)
  {
    score * (passed + failed) as real == passed as real
  }

  /** `passed / (passed + failed)`. */
  function Share(passed: nat, failed: nat): (r: real)
    requires passed + failed > 0
    ensures 0.0 <= r <= 1.0
    ensures IsShare(r, passed, failed)
  {
    var n := (passed + failed) as real;
    var score := passed as real / n;
    assert score * n == passed as real;
    score
  }

  /** The class-based graders' correctness level is this score on the 0..4 scale, rounded. */
  lemma ScoreScaled(tests: seq<string>)
    requires ScoreOf(tests).Ok?
    ensures var p, f := CountContaining(tests, "PASSED"), CountContaining(tests, "FAILED");
            p + f > 0 && RoundTenths(ScoreOf(tests).value * 4.0) == PassRatioLevel(p, f)
  {
  }

  /** Counting over a report printed line by line. */
  lemma PytestScoreOfLines(lines: seq<string>)
    requires forall k :: 0 <= k < |lines| ==> AllIn(lines[k], NonLineBreak)
    ensures PytestScore(true, Unlines(lines)) == ScoreOf(Filter(lines, IsPercentLine))
  {
    SplitLinesUnlines(lines);
  }

  /** One more passing outcome never lowers the score. */
  lemma OnePassMore(tests: seq<string>, more: seq<string>)
    requires CountContaining(more, "PASSED") == CountContaining(tests, "PASSED") + 1
    requires CountContaining(more, "FAILED") == CountContaining(tests, "FAILED")
    requires ScoreOf(tests).Ok?
    ensures ScoreOf(more).Ok? && ScoreOf(tests).value <= ScoreOf(more).value
  {
    RatioGrows(CountContaining(tests, "PASSED"), CountContaining(tests, "FAILED"));
  }

  /** One more passing progress line never lowers the score. */
  lemma PassingLineRaisesScore(lines: seq<string>, l: string)
    requires forall k :: 0 <= k < |lines| ==> AllIn(lines[k], NonLineBreak)
    requires AllIn(l, NonLineBreak) && IsPercentLine(l) && Contains(l, "PASSED") && !Contains(l, "FAILED")
    requires PytestScore(true, Unlines(lines)).Ok?
    ensures PytestScore(true, Unlines(lines + [l])).Ok?
    ensures PytestScore(true, Unlines(lines)).value <= PytestScore(true, Unlines(lines + [l])).value
  {
    ICS3UGrader.AppendLine(lines, l);
    PytestScoreOfLines(lines);
    PytestScoreOfLines(lines + [l]);
    ICS3UGrader.CountsOneMore(lines, l, IsPercentLine, "PASSED");
    ICS3UGrader.CountsOneMore(lines, l, IsPercentLine, "FAILED");
    OnePassMore(Filter(lines, IsPercentLine), Filter(lines + [l], IsPercentLine));
  }

  /** One more pass never lowers the share of passes. */
  lemma RatioGrows(p: nat, f: nat)
    requires p + f > 0
    ensures Share(p, f) <= Share(p + 1, f)
  {
    var n1, n2 := (p + f) as real, (p + 1 + f) as real;
    var r1, r2 := p as real / n1, (p + 1) as real / n2;
    var k := n1 * n2;
    var a, c := p as real * n2, (p + 1) as real * n1;
    assert r1 * n1 == p as real;
    assert r2 * n2 == (p + 1) as real;
    assert r1 * k == a;
    assert r2 * k == c;
    assert a <= c;
  }
}
