# pycs grading engine and grade book, in Dafny

pycs is a classroom site where students upload a program and a grader scores it. A score is a
level between 0 and 4, for example 2.7, together with a feedback text. This project models the
grading engine of pycs and the grade-book roll-up of its assignment controller, and proves
properties of both.

- **The two course graders.** `ICS3UGrader` checks a Python submission and `ICS4UGrader` a Java
  submission. Each is modelled in its own module with the same four checks:
  - the header docstring or Javadoc;
  - variable-name conventions (snake_case or camelCase);
  - input/processing/output (IPO) comments;
  - unit tests, whose results come from pytest or JUnit.
  The four levels are combined by the same weighting: correctness counts four times, each style check once.
- **`GradingStrategy`.** The common interface both graders satisfy. It also covers the view's
  choice of grader by class number.
- **`LegacyGrader`.** The older free-function grader in `pycs/grader.py`: its header, naming
  and IPO checks, the sanitising of Python tracebacks, the input/output comparison and the
  pytest score.
- **`AssignmentController`.** The grade book:
  - grouping a student's assignments by unit, with zero for work that is missing past its due
    date;
  - the weighted overall average, which takes the weight categories and "today" as
    parameters.
- **Shared modules.**
  - `PyText` holds Python's string primitives: `strip`, `lower`, `split`, `splitlines`,
    `replace`, `in` and `str.center`.
  - `Scoring` holds the rounding, level and comment arithmetic the graders share.
  - `PyConventions` holds the assignment pattern of the Python graders.
  - `IpoPatterns` holds a hand-written matcher for the IPO heading regexes.

A Python exception is a value here: every operation that can raise returns
`Result<T> = Ok(value) | Raised(error)`, which names the exception the source would raise.
Runs of external programs (pytest, `javac`, `java`, `python`) are inputs of type
`Run = Timeout | Exited(returncode, stdout, stderr)`. Python floats are modelled as exact
reals, and Python's `round` is modelled as rounding half up to tenths or hundredths.

## Model

| member | source | states |
|---|---|---|
| Scoring.RoundTenths | pycs/grader/ICS3UGrader.py:164 | `round(x, 1)` lies within half a tenth of x |
| Scoring.RoundHundredths | pycs/controllers/assignment.py:152 | `round(x, 2)` lies within half a hundredth of x |
| Scoring.RoundTenthsMonotone | pycs/grader/ICS3UGrader.py:193 | rounding to tenths never reverses the order of two levels |
| Scoring.RoundHundredthsMonotone | pycs/controllers/assignment.py:152 | rounding to hundredths never reverses the order of two averages |
| Scoring.RoundTenthsExact | pycs/grader/ICS3UGrader.py:164 | a value that already has one decimal is unchanged by rounding |
| Scoring.RoundHundredthsExact | pycs/controllers/assignment.py:152 | a value that already has two decimals is unchanged by rounding |
| Scoring.RoundTenthsInScale | pycs/grader/ICS3UGrader.py:193 | rounding a level in [0, 4] keeps it in [0, 4] |
| Scoring.PassRatioLevel | pycs/grader/ICS3UGrader.py:155-164 | `round(passed/(passed+failed)*4, 1)` lies within half a tenth of 4·passed/(passed+failed) and in [0, 4]; it is 4 with no failure and 0 with no pass |
| Scoring.PassRatioMonotone | pycs/grader/ICS3UGrader.py:155-164 | a larger pass ratio never gives a lower level |
| Scoring.PassRatioFixtures | pycs/grader/ICS3UGrader.py:155-164 | 2 of 2 passing gives 4.0, 1 of 2 gives 2.0, 0 of 2 gives 0.0 and 2 of 3 gives 2.7 |
| Scoring.CountsGrade | pycs/grader/ICS3UGrader.py:155-164 | with no counted test the grade is level 1 with the guidance text (the ZeroDivisionError branch); otherwise the feedback is the test output and the level lies within half a tenth of 4·passed/(passed+failed) |
| Scoring.CountsGradeOnePass | pycs/grader/ICS3UGrader.py:152-164 | one more passing test never lowers the level |
| Scoring.FilterMembers | pycs/grader/ICS3UGrader.py:149-151 | the list comprehension keeps exactly the lines that satisfy the filter |
| Scoring.FilterAppend | pycs/grader/ICS3UGrader.py:149-151 | filtering distributes over concatenation, so line order is kept |
| Scoring.CountContainingAppend | pycs/grader/ICS3UGrader.py:152-153 | the `sum("PASSED" in line ...)` count is additive over concatenation |
| Scoring.DropWhileSuffix | pycs/grader/ICS3UGrader.py:19-21 | `dropwhile` returns a suffix and every line it dropped is blank |
| Scoring.DropWhilePrefix | pycs/grader/ICS3UGrader.py:19-21 | blank lines put before the file are dropped as well |
| Scoring.ConventionGrade | pycs/grader/ICS3UGrader.py:77-88 | level 4 iff every recorded name follows the convention, otherwise 2, with the offending names joined by commas in the feedback |
| Scoring.MetadataComplaints | pycs/grader/ICS3UGrader.py:32-40 | the header complaint is empty iff the author, date and description lines are all well formed |
| Scoring.MetadataComplaintsOrder | pycs/grader/ICS3UGrader.py:32-40 | the complaint starts with the author message iff the author is wrong, and ends with the description message iff the description is wrong |
| Scoring.CollectComplaints | pycs/grader/ICS3UGrader.py:32-40 | the `comment +=` accumulation produces exactly that complaint |
| Scoring.NoBracketNoMarker | pycs/grader.py:264 | a line without `[` never matches the progress pattern `\[\s?\d+%\]` |
| Scoring.IpoGrade | pycs/grader/ICS3UGrader.py:97-109 | level 0 iff no IPO heading is present; level 4 iff an input heading and either processing and output or the combined heading are present; 2 otherwise |
| Scoring.Banner | pycs/grader/ICS3UGrader.py:179-181 | for a title of at most 78 characters the banner is `k` `=` signs, the title between two spaces, `78-|title|-k` `=` signs and a newline, with `k = (78-|title|)/2`: 81 characters, the odd padding on the right as `:=^80` does |
| Scoring.WeightedLevel | pycs/grader/ICS3UGrader.py:173-176 | the 1/1/1/4 weighting (divided by 7) of four levels in [0, 4] stays in [0, 4] |
| Scoring.WeightedLevelMonotone | pycs/grader/ICS3UGrader.py:173-176 | raising any of the four levels never lowers the weighted level |
| Scoring.WeightedLevelUniform | pycs/grader/ICS3UGrader.py:173-176 | four equal levels weigh to that level, because the weights sum to 1 |
| Scoring.StudentGrade | pycs/grader/ICS3UGrader.py:166-193 | the level is the weighted level of the four sub-levels, in [0, 4] when they are; the feedback is, in order, the comments banner, the header and IPO comments, the variables banner, the variable comment, the correctness banner and the unit-test comment |
| Scoring.StudentResult | pycs/grader/ICS3UGrader.py:166-193 | `grade_student` raises iff the header or the unit-test check raises; otherwise its level is in [0, 4] |
| PyConventions.AssignmentEnd | pycs/grader/ICS3UGrader.py:65 | a match of `\s*[a-zA-Z0-9_]+\s*=[^=]` starting at a given offset ends just after `=` and one character that is not `=` |
| PyConventions.SearchAssignment | pycs/grader/ICS3UGrader.py:65 | `re.search` returns a start at which the pattern matches |
| PyConventions.SearchAssignmentLeftmost | pycs/grader/ICS3UGrader.py:65 | no match starts before the one `re.search` returns |
| PyConventions.AssignmentSpan | pycs/grader/ICS3UGrader.py:67-68 | the stripped text before `=` is exactly the `[a-zA-Z0-9_]+` run of the match |
| PyConventions.SpanIsWord | pycs/grader/ICS3UGrader.py:67-68 | that text is a non-empty word |
| PyConventions.AssignedNameIsWord | pycs/grader/ICS3UGrader.py:65-68 | every recorded variable name is a non-empty run of word characters |
| PyConventions.NoEqualsNoName | pycs/grader/ICS3UGrader.py:65-66 | a line without `=` records no name |
| PyConventions.AssignmentFromStart | pycs/grader/ICS3UGrader.py:65-68 | an indented `name = value` line records `name` |
| PyConventions.AssignmentEndAtStart | pycs/grader/ICS3UGrader.py:65 | the match on such a line ends just after `= ` |
| PyConventions.SimpleAssignment | pycs/grader/ICS3UGrader.py:65-68 | `indent + name + " = " + value` records exactly `name` |
| PyConventions.VarNames | pycs/grader/ICS3UGrader.py:57-69 | at most one name per line, each a non-empty word |
| PyConventions.CollectVarNames | pycs/grader/ICS3UGrader.py:57-69 | the appending loop collects exactly the names of the lines, in order |
| IpoPatterns.OptSpace | pycs/grader/ICS3UGrader.py:92-95 | `\s?` consumes one character exactly when that character is whitespace |
| IpoPatterns.GradeIpo | pycs/grader/ICS3UGrader.py:90-109 | level 0 iff no heading pattern matches the joined, stripped, lower-cased text; level 4 iff input and (processing and output, or the combined heading) match |
| IpoPatterns.JoinedLine | pycs/grader/ICS3UGrader.py:91 | each line sits in the `"\n".join` text at its offset, bounded by line starts and ends, as `re.MULTILINE` needs |
| IpoPatterns.LineInTail | pycs/grader/ICS3UGrader.py:91 | a line found in the rest of the text stays a whole line after a line is put before it |
| IpoPatterns.CharsEmbedded | pycs/grader/ICS3UGrader.py:92-95 | literal characters matched in a line also match in the joined text |
| IpoPatterns.OptSpaceEmbedded | pycs/grader/ICS3UGrader.py:92-95 | the optional space consumes the same character in the line and in the joined text |
| IpoPatterns.WordEmbedded | pycs/grader/ICS3UGrader.py:92-95 | a heading word and its line end match in the joined text as in the line |
| IpoPatterns.HeadingEmbedded | pycs/grader/ICS3UGrader.py:92-95 | a heading that matches a line also matches the joined text at that line |
| IpoPatterns.CombinedEmbedded | pycs/grader/ICS3UGrader.py:95 | the combined `processing / output` heading matched in a line also matches the joined text |
| IpoPatterns.HeadingLineFound | pycs/grader/ICS3UGrader.py:91-95 | a line that is, once stripped and lower-cased, a heading is found |
| IpoPatterns.JoinAvoids | pycs/grader/ICS3UGrader.py:91 | a character absent from every line is absent from the joined text |
| IpoPatterns.LowerStripAvoids | pycs/grader/ICS3UGrader.py:91 | stripping and lower-casing add no non-lower-case character |
| IpoPatterns.NoMarkerInLines | pycs/grader/ICS3UGrader.py:91-95 | without the comment marker in any line, no heading is found |
| IpoPatterns.NoMarkerNotFound | pycs/grader/ICS3UGrader.py:92-95 | text without the comment marker matches no heading |
| ICS3UGrader.HeaderVerdict | pycs/grader/ICS3UGrader.py:14-50 | after the leading blank lines: level 0 iff the file is empty ("blank file" comment) or does not open with a docstring quote ("Docstrings are missing."); level 4 iff `"""`, author, date and description lines and a closing `"""` follow, with the "good" comment; level 2 otherwise, commented with the `'''` warning, the metadata complaints in order, or "not closed"; IndexError iff a `"""` header is shorter than five lines and its metadata lines, when present, are all well formed |
| ICS3UGrader.LeadingBlankLinesIgnored | pycs/grader/ICS3UGrader.py:18-21 | blank lines put before the file never change the header verdict |
| ICS3UGrader.GradeHeaderComments | pycs/grader/ICS3UGrader.py:14-50 | the method with its `comment +=` steps returns exactly the verdict |
| ICS3UGrader.GradeVarNames | pycs/grader/ICS3UGrader.py:52-88 | level 4 iff every assigned name is snake_case, otherwise 2 |
| ICS3UGrader.SnakeCaseExamples | pycs/grader/ICS3UGrader.py:70-75 | `greeting`, `MAX_SIZE` and `num_2` pass the snake_case pattern; `Place`, `numApples` and `_1` fail it |
| ICS3UGrader.GradeIpoComments | pycs/grader/ICS3UGrader.py:90-109 | levels 0, 2 or 4; 4 iff `# input` and either `# processing` with `# output` or the combined heading are present |
| ICS3UGrader.IpoHeadingTexts | pycs/grader/ICS3UGrader.py:92-94 | `# input`, `# processing` and `#output` match their patterns |
| ICS3UGrader.IpoHeadingLines | pycs/grader/ICS3UGrader.py:91-109 | a file holding those three heading lines, in any case and indentation, gets level 4 |
| ICS3UGrader.NoHashNoIpo | pycs/grader/ICS3UGrader.py:91-109 | a file with no `#` gets level 0 |
| ICS3UGrader.ReportGrade | pycs/grader/ICS3UGrader.py:148-164 | the level of a pytest report is in [0, 4] |
| ICS3UGrader.GradeUnitTestAsWritten | pycs/grader/ICS3UGrader.py:138-164 | a timed-out pytest run gives level 1 with the infinite-loop comment; otherwise, counting PASSED and FAILED over the lines the character class `[\s*\d+%]` keeps, level 1 with the guidance when there are none, else the pass-ratio level with the output as feedback |
| ICS3UGrader.GradeUnitTest | pycs/grader/ICS3UGrader.py:138-164 | the corrected grade, counting only `[ NN%]` progress lines: a timeout gives level 1 with the infinite-loop comment; no counted test gives level 1 with the guidance; otherwise the pass-ratio level with the output as feedback |
| ICS3UGrader.UnitTestResult | pycs/grader/ICS3UGrader.py:111-164 | raises FileNotFoundError iff the test file cannot be copied; otherwise it is the grade of the source's character-class filter |
| ICS3UGrader.ReportLevel | pycs/grader/ICS3UGrader.py:148-164 | the grade of a report is the counts grade of the PASSED and FAILED lines among the filtered lines |
| ICS3UGrader.AppendLine | pycs/grader/ICS3UGrader.py:148 | appending a line without line breaks keeps the report made of whole lines |
| ICS3UGrader.CountsOneMore | pycs/grader/ICS3UGrader.py:149-153 | an appended counted line adds one to a count iff it contains the word |
| ICS3UGrader.CountsDropped | pycs/grader/ICS3UGrader.py:149-153 | an appended line the filter drops changes no count |
| ICS3UGrader.OnePassingLine | pycs/grader/ICS3UGrader.py:149-164 | for any line filter, one more counted passing line never lowers the counts grade |
| ICS3UGrader.PassingReportNeverLowers | pycs/grader/ICS3UGrader.py:148-164 | for any line filter, appending a counted passing line to a report never lowers its level |
| ICS3UGrader.PassingTestNeverLowers | pycs/grader/ICS3UGrader.py:138-164 | with the source's character-class filter, one more passing progress line never lowers the unit-test level |
| ICS3UGrader.PassingTestNeverLowersIntended | pycs/grader/ICS3UGrader.py:138-164 | the same for the corrected progress-line grade |
| ICS3UGrader.ProgressLineIsTestLine | pycs/grader/ICS3UGrader.py:149-151 | every progress line also passes the source's character-class filter |
| ICS3UGrader.TestLineCounts | pycs/grader/ICS3UGrader.py:149-153 | a FAILED summary line containing a space is counted as one more failure by the source's filter |
| ICS3UGrader.SummaryLineCounted | pycs/grader/ICS3UGrader.py:149-164 | as written, pytest's FAILED summary line turns p passed and f failed into the level of p passed and f+1 failed |
| ICS3UGrader.SummaryLineIgnored | pycs/grader/ICS3UGrader.py:149-164 | with the progress-line filter a line without `[` leaves the level of p passed and f failed unchanged |
| ICS3UGrader.SummaryLineExample | pycs/grader/ICS3UGrader.py:155-164 | one pass and one failure give 2.0, while counting the failure twice gives 1.3 |
| ICS3UGrader.FilterKeepsAll | pycs/grader/ICS3UGrader.py:149-151 | a filter every line passes keeps the lines unchanged |
| ICS3UGrader.GradeStudent | pycs/grader/ICS3UGrader.py:166-193 | the weighted result of the header, IPO, snake_case and unit-test checks, the last with the source's character-class filter; raises iff the header check raises or the test file is missing; otherwise the level is in [0, 4] |
| ICS4UGrader.AfterStar | pycs/grader/ICS4UGrader.py:33-37 | the Javadoc prefix ` ?\* ` (literal spaces) matches iff the line starts with `* ` (continuing at 2) or with ` * ` (continuing at 3) |
| ICS4UGrader.Optional | pycs/grader/ICS4UGrader.py:33-37 | an optional character is consumed only when present |
| ICS4UGrader.HeaderVerdict | pycs/grader/ICS4UGrader.py:14-50 | after the leading blank lines and lines containing "import": level 0 iff nothing is left ("blank file" comment) or the first line is not `/**` ("Header comments are missing."); level 4 iff author, date and description lines and a closing `*/` follow, with the "good" comment; level 2 otherwise, commented with the metadata complaints in order or "not closed"; IndexError iff a `/**` header is shorter than five lines and its metadata lines, when present, are all well formed |
| ICS4UGrader.ImportsBeforeHeaderIgnored | pycs/grader/ICS4UGrader.py:18-23 | blank lines and lines containing "import" before the Javadoc never change the verdict |
| ICS4UGrader.PackageLineHidesHeader | pycs/grader/ICS4UGrader.py:18-29 | only blank and import lines are skipped, so a file opening with `package p;` gets level 0, "Header comments are missing.", whatever header follows |
| ICS4UGrader.GradeHeaderComments | pycs/grader/ICS4UGrader.py:14-50 | the method with its `comment +=` steps returns exactly the verdict |
| ICS4UGrader.AuthorExamples | pycs/grader/ICS4UGrader.py:33 | ` * @author Jane` and `* Author: Bob` are author lines |
| ICS4UGrader.AuthorCounterExamples | pycs/grader/ICS4UGrader.py:33 | ` * @author:Jane` and `// author Jane` are not |
| ICS4UGrader.DateDescriptionExamples | pycs/grader/ICS4UGrader.py:35-37 | ` * @date 01/02/2023` is a date line and ` * Computes areas` a description line |
| ICS4UGrader.ClosingExamples | pycs/grader/ICS4UGrader.py:43 | ` */` and `* /` close the header, while ` *` does not |
| ICS4UGrader.MatchDeclaration | pycs/grader/ICS4UGrader.py:65 | a match of `^\s*[a-zA-Z]+ ([a-zA-Z_$][\w$]*)\s*[=;]` has the layout indent, type, space, identifier, gap, separator |
| ICS4UGrader.MatchLaidOut | pycs/grader/ICS4UGrader.py:65 | the line matches with a given layout iff the line has that layout |
| ICS4UGrader.StrippedMatch | pycs/grader/ICS4UGrader.py:67 | the stripped match starts at the type word |
| ICS4UGrader.TypeWord | pycs/grader/ICS4UGrader.py:67-68 | `split()` of the match yields the type word first |
| ICS4UGrader.NameTouchesSeparator | pycs/grader/ICS4UGrader.py:67-68 | when the separator touches the identifier, the second part is the identifier with the separator |
| ICS4UGrader.NameBeforeSeparator | pycs/grader/ICS4UGrader.py:67-68 | when spaces come before the separator, the second part is the identifier alone |
| ICS4UGrader.SecondPart | pycs/grader/ICS4UGrader.py:67-68 | `split()[1]` exists and is the identifier, followed by the separator when it touches |
| ICS4UGrader.NameTouching | pycs/grader/ICS4UGrader.py:67-68 | `split()` of an identifier touching its separator is one token |
| ICS4UGrader.NameSpaced | pycs/grader/ICS4UGrader.py:67-68 | `split()` of an identifier before a gap gives the identifier and the separator |
| ICS4UGrader.SecondPartSuffix | pycs/grader/ICS4UGrader.py:68 | `removesuffix(";")` drops a touching `;` but keeps a touching `=` |
| ICS4UGrader.CapturedIdentifier | pycs/grader/ICS4UGrader.py:65 | the identifier of a match is a Java identifier |
| ICS4UGrader.RecordedName | pycs/grader/ICS4UGrader.py:67-68 | the recorded text is the identifier, with a trailing `=` when `=` touches it |
| ICS4UGrader.RecordedTouching | pycs/grader/ICS4UGrader.py:67-68 | the same, for a separator touching the identifier |
| ICS4UGrader.TouchingToken | pycs/grader/ICS4UGrader.py:68 | for a touching separator the recorded text is the token without a trailing `;` |
| ICS4UGrader.RecordedSpaced | pycs/grader/ICS4UGrader.py:67-68 | for a spaced separator the recorded text is the identifier alone |
| ICS4UGrader.DeclaredNameOf | pycs/grader/ICS4UGrader.py:65-68 | the name recorded for a laid-out line, in terms of its layout |
| ICS4UGrader.DeclaredNameShape | pycs/grader/ICS4UGrader.py:65-68 | a name is recorded iff the line matches, and it is a Java identifier, followed by `=` exactly when `=` touches it |
| ICS4UGrader.ShapeOfMatch | pycs/grader/ICS4UGrader.py:65-68 | the same, for a given match |
| ICS4UGrader.SimpleDeclaration | pycs/grader/ICS4UGrader.py:65-68 | `int count = 0;`-shaped lines record `count`, or `count=` when `=` touches the name |
| ICS4UGrader.DeclaredNames | pycs/grader/ICS4UGrader.py:57-69 | at most one name per line, each starting like a Java identifier |
| ICS4UGrader.CollectDeclaredNames | pycs/grader/ICS4UGrader.py:57-69 | the appending loop collects exactly the names of the lines, in order |
| ICS4UGrader.CamelCaseIgnoresEquals | pycs/grader/ICS4UGrader.py:71-76 | a recorded trailing `=` never changes the camelCase verdict |
| ICS4UGrader.CamelCaseExamples | pycs/grader/ICS4UGrader.py:71-76 | `numApples`, `MAX_SIZE` and `x` pass the camelCase pattern; `NumApples` and `num_apples` fail it |
| ICS4UGrader.GradeVarNames | pycs/grader/ICS4UGrader.py:52-89 | level 4 iff every declared name is camelCase, otherwise 2 |
| ICS4UGrader.GradeIpoComments | pycs/grader/ICS4UGrader.py:91-112 | levels 0, 2 or 4; 4 iff `// input` and either `// processing` with `// output` or the combined heading are present |
| ICS4UGrader.IpoHeadingTexts | pycs/grader/ICS4UGrader.py:93-98 | `// input` and `//processing / output` match their patterns |
| ICS4UGrader.IpoCombinedHeadings | pycs/grader/ICS4UGrader.py:92-107 | a file with an input heading line and a combined heading line gets level 4 |
| ICS4UGrader.NoSlashNoIpo | pycs/grader/ICS4UGrader.py:92-107 | a file with no `/` gets level 0 |
| ICS4UGrader.CompileResult | pycs/grader/ICS4UGrader.py:114-131 | it compiles iff `javac` exits with 0; the message is stdout on success and stderr on failure, and absent on timeout |
| ICS4UGrader.JunitResult | pycs/grader/ICS4UGrader.py:133-186 | TimeoutExpired is raised iff the test compile succeeds and the JUnit run times out; a successful run yields its stdout |
| ICS4UGrader.FindNumberSkips | pycs/grader/ICS4UGrader.py:209-218 | text without digits before the number does not change the number found |
| ICS4UGrader.FindNumberShow | pycs/grader/ICS4UGrader.py:209-218 | the first run of digits in a line is read back as its number |
| ICS4UGrader.JunitReport | pycs/grader/ICS4UGrader.py:205-235 | IndexError iff the report has fewer than three lines; otherwise the level is in [0, 4] |
| ICS4UGrader.JunitSummaryLevel | pycs/grader/ICS4UGrader.py:205-235 | the third- and second-to-last lines give the passed and failed counts of the grade |
| ICS4UGrader.GradeUnitTest | pycs/grader/ICS4UGrader.py:188-235 | raises iff the test file is missing, or the code compiles and then the JUnit run times out or its report is too short; code that does not compile gets level 1 with the compiler error; a JUnit compile that times out gets level 1 with the infinite-loop message, and one that fails gets level 1 with its error output; a finished run is graded by its summary lines |
| ICS4UGrader.GradeStudent | pycs/grader/ICS4UGrader.py:238-265 | the weighted result of the four checks; raises iff the header or the unit-test check raises; otherwise the level is in [0, 4] |
| GradingStrategy.SelectCourse | pycs/views/main.py:123-127 | class 1 is graded as ICS3U (Python), every other class as ICS4U (Java) |
| GradingStrategy.NewStrategy | pycs/grader/GradingStrategy.py:4-22 | FileNotFoundError iff there is no file; otherwise the strategy keeps its course, its path and the lines of the file |
| GradingStrategy.StoredLines | pycs/grader/GradingStrategy.py:9-22 | the lines kept are exactly the lines the file was written from |
| GradingStrategy.GradeHeaderComments | pycs/grader/GradingStrategy.py:24-31 | a level in [0, 4] or an IndexError |
| GradingStrategy.GradeVarNames | pycs/grader/GradingStrategy.py:33-39 | a level in [2, 4] |
| GradingStrategy.GradeIpoComments | pycs/grader/GradingStrategy.py:41-47 | a level in [0, 4] |
| GradingStrategy.GradeUnitTest | pycs/grader/GradingStrategy.py:49-56 | a level in [0, 4]; a missing test file raises FileNotFoundError; for ICS3U it is the grade of the source's character-class filter |
| GradingStrategy.GradeStudent | pycs/grader/GradingStrategy.py:58-67 | the weighted grade of the four checks of the chosen course, as that course computes them; raises iff the header or the unit-test check raises |
| LegacyGrader.HeaderVerdict | pycs/grader.py:36-60 | on the lines as given: level 0 iff the first line is not a docstring quote, with "Docstrings are missing."; 4 iff a complete `"""` header, with the "good" comment; level 2 otherwise, commented with the `'''` warning, the metadata complaints in order, or "not closed"; IndexError on an empty file or a short header |
| LegacyGrader.CheckHeaderLines | pycs/grader.py:36-60 | the method with its `comment +=` steps returns exactly that verdict |
| LegacyGrader.CheckHeaderCommentsAsWritten | pycs/grader.py:21-60 | as written, the verdict of the lines with the blank lines kept |
| LegacyGrader.CheckHeaderComments | pycs/grader.py:21-60 | corrected: the verdict of the lines after the leading blank lines |
| LegacyGrader.BlankLineHidesDocstring | pycs/grader.py:33-38 | as written, one blank line before a docstring gives level 0 "Docstrings are missing"; with the blank lines dropped it does not |
| LegacyGrader.LeadingBlankLinesIgnored | pycs/grader.py:33-34 | corrected, blank lines put before the file never change the verdict |
| LegacyGrader.AllLowerEvery | pycs/grader.py:87 | the `all(... islower())` test holds iff every name is lower case |
| LegacyGrader.LowerCaseGrade | pycs/grader.py:87-90 | level 4 iff every name is lower case, otherwise 1 with the convention message |
| LegacyGrader.CheckVariableNames | pycs/grader.py:63-90 | the collecting loop grades exactly the names of the assignments |
| LegacyGrader.LowerCaseIsSnakeCase | pycs/grader.py:87-90 | a file the legacy check accepts is also accepted by the ICS3U snake_case check |
| LegacyGrader.CapitalsRefused | pycs/grader.py:87-90 | an all-capital constant fails the legacy check but passes the ICS3U check |
| LegacyGrader.CapitalisedAssignment | pycs/grader.py:75-90 | a file assigning a lower-case name and then a capitalised one gets level 1 |
| LegacyGrader.TwoAssignments | pycs/grader.py:75-85 | two `name = value` lines record both names, in order |
| LegacyGrader.PairOfNames | pycs/grader.py:75-85 | two lines with recorded names give those two names, in order |
| LegacyGrader.CheckIpo | pycs/grader.py:93-119 | levels 0, 2 or 4; 0 iff no heading is found; 4 iff input and (processing and output, or the combined heading) |
| LegacyGrader.LegacyHeadingIsPythonHeading | pycs/grader.py:102-105 | every heading the legacy patterns match is matched by the ICS3U patterns |
| LegacyGrader.IpoNoMoreLenient | pycs/grader.py:93-119 | a legacy level 4 implies an ICS3U level 4, and an ICS3U level 0 implies a legacy level 0 |
| LegacyGrader.NewlineFrom | pycs/grader.py:142 | the end of the current line, as `.` in a regex sees it |
| LegacyGrader.LastOccurrence | pycs/grader.py:142 | the greedy `.*` backtracks to the last occurrence within bounds |
| LegacyGrader.PathAt | pycs/grader.py:142 | `".*\.py"` at a quote ends after the last `.py"` of the line |
| LegacyGrader.SnakeRun | pycs/grader.py:144 | the run of `[a-z_]` characters from an offset |
| LegacyGrader.LastDotPy | pycs/grader.py:144 | the last `.py` end within bounds |
| LegacyGrader.NameAt | pycs/grader.py:144 | a `\d{9}_[a-z_]+.py` file name ends after the last `.py` the `[a-z_]+` run allows |
| LegacyGrader.MatchAt | pycs/grader.py:142-144 | a match at an offset is at least five characters long |
| LegacyGrader.Search | pycs/grader.py:142-144 | `re.search` gives the leftmost match |
| LegacyGrader.SafeDecodeStderr | pycs/grader.py:136-146 | text without `File` is returned unchanged; AttributeError iff `File` occurs and one of the two searches finds nothing |
| LegacyGrader.SameChar | pycs/grader.py:142 | an occurrence of a slice repeats the slice's characters |
| LegacyGrader.OccurrenceOnOneLine | pycs/grader.py:142-146 | any occurrence of the matched path lies on one line |
| LegacyGrader.OccurrenceEndsInPy | pycs/grader.py:142-146 | any occurrence of the matched path ends in `.py"` |
| LegacyGrader.PathTextMatches | pycs/grader.py:142-146 | where the path pattern cannot match, the matched path does not occur |
| LegacyGrader.PathFirstOccurrence | pycs/grader.py:142-146 | the matched path first occurs where it was matched, so `replace` starts there |
| LegacyGrader.DecodeReplaces | pycs/grader.py:142-146 | with both matches, the result replaces every occurrence of the path by the file name |
| LegacyGrader.SanitizedText | pycs/grader.py:136-146 | the text before the path is kept, the path becomes the file name, and the rest is replaced too |
| LegacyGrader.GradeIo | pycs/grader.py:149-190 | level 4 iff the run's output is accepted; a failing run is graded 1 with the sanitised traceback, and raises AttributeError iff that sanitising fails |
| LegacyGrader.ExactImpliesContained | pycs/grader.py:175-190 | output accepted by exact comparison is also accepted by containment |
| LegacyGrader.ScoreOf | pycs/grader.py:265-267 | ZeroDivisionError iff no PASSED or FAILED line; otherwise the score times the number of counted outcomes is the number passed |
| LegacyGrader.PytestScore | pycs/grader.py:248-269 | FileNotFoundError when the test file is missing; otherwise ZeroDivisionError iff the progress lines hold no PASSED or FAILED; otherwise a score in [0, 1] that, times the number of counted outcomes, is the number passed: the unscaled P/(P+F) |
| LegacyGrader.Share | pycs/grader.py:267 | the pass ratio lies in [0, 1] and, times the number of outcomes, is the number passed |
| LegacyGrader.ScoreScaled | pycs/grader.py:263-267 | the legacy score times four, rounded, is the ICS3U pass-ratio level |
| LegacyGrader.PytestScoreOfLines | pycs/grader.py:260-267 | the score of a report is the score of its progress lines |
| LegacyGrader.OnePassMore | pycs/grader.py:265-267 | one more pass never lowers the score |
| LegacyGrader.PassingLineRaisesScore | pycs/grader.py:260-267 | appending a passing progress line never lowers the score |
| LegacyGrader.RatioGrows | pycs/grader.py:267 | the pass ratio grows with the number of passes |
| AssignmentController.ScoreOf | pycs/controllers/assignment.py:109-115 | the submitted score if there is one, else 0 when past due, else no score |
| AssignmentController.UnitEntries | pycs/controllers/assignment.py:117-129 | a unit's list holds exactly the entries of its visible assignments |
| AssignmentController.ScoresDict | pycs/controllers/assignment.py:104-107 | the keys are exactly the unit names of all assignments, visible or not |
| AssignmentController.DictContents | pycs/controllers/assignment.py:103-131 | each unit maps to its reference list of entries, in row order |
| AssignmentController.AbsentUnit | pycs/controllers/assignment.py:104-107 | a unit no assignment belongs to has no entries |
| AssignmentController.AssignmentsScoresToDict | pycs/controllers/assignment.py:103-131 | the loop builds exactly that dictionary |
| AssignmentController.EntryFacts | pycs/controllers/assignment.py:117-129 | each entry comes from a visible assignment of its unit, with the same id and score and `total` equal to `total_points` |
| AssignmentController.HiddenUnitIsEmpty | pycs/controllers/assignment.py:104-118 | a unit whose assignments are all hidden is a key with an empty list |
| AssignmentController.VisibleShown | pycs/controllers/assignment.py:117-129 | every visible assignment appears under its unit |
| AssignmentController.Buckets | pycs/controllers/assignment.py:139-146 | raises iff some counted assignment has a weight outside the weightings (KeyError) or zero total points (ZeroDivisionError); otherwise one bucket per weighting |
| AssignmentController.BucketContents | pycs/controllers/assignment.py:139-146 | each bucket holds the marks of the counted assignments of that weight, in order |
| AssignmentController.Distinct | pycs/controllers/assignment.py:140 | the dictionary's keys: the same weights, without duplicates |
| AssignmentController.Mean | pycs/controllers/assignment.py:148-152 | an empty bucket averages to 0 instead of dividing by zero |
| AssignmentController.OverallAvg | pycs/controllers/assignment.py:134-155 | raises iff some counted assignment fails as above |
| AssignmentController.CalcOverallAvg | pycs/controllers/assignment.py:134-155 | the loop computes exactly that average, stopping at the first failing row |
| AssignmentController.BucketsStop | pycs/controllers/assignment.py:142-146 | once a prefix of the rows raises, the whole sequence raises the same way |
| AssignmentController.NotDueIgnored | pycs/controllers/assignment.py:142-146 | an unsubmitted assignment not yet due never changes the average |
| AssignmentController.NotDueSkipped | pycs/controllers/assignment.py:142-146 | such an assignment adds to no bucket |
| AssignmentController.ScoreAgrees | pycs/controllers/assignment.py:109-146 | the average counts an assignment iff the table shows a score, and its mark times the total is that score |
| AssignmentController.SumBounds | pycs/controllers/assignment.py:152 | a sum of marks in [0, 1] lies between 0 and their number |
| AssignmentController.MeanInUnit | pycs/controllers/assignment.py:148-152 | the mean of marks in [0, 1] lies in [0, 1] |
| AssignmentController.MarksInUnit | pycs/controllers/assignment.py:142-146 | scores between 0 and the total points give marks in [0, 1] |
| AssignmentController.WeightedTotalBounds | pycs/controllers/assignment.py:152 | the weighted sum of means in [0, 1] lies between 0 and the sum of the weights |
| AssignmentController.RoundedWithin | pycs/controllers/assignment.py:152 | rounding to hundredths keeps a total between 0 and an integer bound |
| AssignmentController.BucketMeans | pycs/controllers/assignment.py:142-152 | every bucket's mean lies in [0, 1] |
| AssignmentController.AverageBounds | pycs/controllers/assignment.py:134-155 | with non-negative weights and in-range scores, the average lies between 0 and the sum of the distinct weights |

## Left out

- Running external programs is not modelled: `_run_pytest`, `_does_code_compile`, `_run_junit` and the `subprocess.run` calls of `grade_io` and `grade_pytest`. Their results are inputs: the `Run` datatype or pytest's output text.
- `shutil.copy2` of the test file is not modelled. Whether the test file exists is a boolean input, and a missing one raises FileNotFoundError as `copy2` would.
- The paths the graders build (`test_<name>.py`, `Test<Name>.java`, the per-student directories) are not modelled, because only the copy's outcome reaches the grade.
- Reading files (`_read_code`, `_read_file`) is not modelled. The file's text, or its absence, is a parameter.
- Bytes are not decoded. Subprocess output is taken as already-decoded text, and a decoding failure is not modelled.
- `grade_function` and `main` in `pycs/grader.py` are left out. They are unfinished plumbing: one returns None after printing, the other runs on a fixed local path.
- Floats: levels and averages are exact reals. `round` rounds half up instead of Python's round-half-even on the binary value, so a result can differ in the last decimal where a float sits exactly on a half.
- Regular expressions are hand-written matchers for the fixed patterns the graders use, not a general regex engine.
- Letters, digits and case mapping (`\w`, `\d`, `[a-zA-Z]`, `isupper`, `islower`, `lower`) cover ASCII only; other Unicode letters and digits are not modelled. Whitespace (`\s`, `strip`, `split`) follows Python's full `str.isspace` set.
- AssignmentController.ScoresDict: the map keeps no key order. Python's dictionary keeps insertion order, which the grade-book page shows; the order of entries within a unit is kept.
- AssignmentController.ScoreOf: `datetime.today()` is one instant passed as `today`, where the source reads the clock once per row. Dates are integers compared as the source compares datetimes.
- AssignmentController.CalcOverallAvg: the weightings are a parameter, not a database query, and scores are integers.
- AssignmentController.OverallAvg: the bound is proved only for scores between 0 and the total points. The source does not enforce that range.
- `upload_assignment_grades` and the `get_*`/`create_*`/`score_ass`/`update_ass_score` database functions in `pycs/controllers/assignment.py` are left out. They are session queries and flash messages.
- The average inside the route handler in `pycs/routes.py` is left out. `calc_overall_avg` supersedes it.
- The Flask views, forms, models and login code are left out.
- `tests/test_grader.py:91-100` expects level 2 for the variables `greeting` and `Place`, while `pycs/grader.py:87-88` returns 1. The model follows the code: LegacyGrader.CapitalisedAssignment proves level 1 for that input.
- An unreadable submission raises FileNotFoundError when a grading strategy is built (`pycs/grader/GradingStrategy.py:9-22`), not a level 0. The model follows the code.

## Findings

| source | as written | input that shows it | evidently intended | confidence | as-written member | corrected member |
|---|---|---|---|---|---|---|
| pycs/grader/ICS3UGrader.py:149-151 | `re.search(r"[\s*\d+%]", line)` is a character class, so any line with a space, digit, `*`, `+` or `%` counts as a test line | pytest's `-v` report `t.py::test_1 PASSED [ 50%]`, `t.py::test_2 FAILED [100%]`, then the summary line `FAILED t.py::test_2 - assert 1 == 2`, counted as 1 passed and 2 failed: level 1.3 instead of 2.0 | count only the progress lines carrying `[ NN%]`, as `pycs/grader.py:264` does; a summary line then changes nothing. The grading pipeline (UnitTestResult, GradeStudent, GradingStrategy) keeps the filter as written; the corrected grade is ICS3UGrader.GradeUnitTest | high, not executed | ICS3UGrader.SummaryLineCounted | ICS3UGrader.SummaryLineIgnored |
| pycs/grader.py:34 | the result of `dropwhile` over the leading blank lines is discarded, so the header check still looks at the first raw line | a file that opens with one blank line and then a complete `"""` docstring gets level 0, "Docstrings are missing" | check the header after the leading blank lines, as the newer graders do (`pycs/grader/ICS3UGrader.py:19-21`) | high, not executed | LegacyGrader.BlankLineHidesDocstring | LegacyGrader.CheckHeaderComments |
