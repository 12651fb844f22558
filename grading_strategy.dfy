// The grading contract every course's grader fulfils: the submission's path, its lines read
// once when a strategy is built, and five checks whose levels stay within fixed ranges.

module GradingStrategy {
  import opened PyText
  import opened Scoring
  import PyConventions
  import ICS3UGrader
  import ICS4UGrader

  /** The two graders: Python submissions checked with pytest, Java submissions with JUnit. */
  datatype Course = ICS3U | ICS4U

  /** What the outside world produced for one submission: whether the course's test file
      could be copied next to the code, pytest's output (`None` when it timed out), and the
      runs of `javac` on the code, `javac` with the tests and the JUnit launcher. */
  datatype Runs = Runs(testFileFound: bool, pytestOutput: Option<string>, compile: Run, junitCompile: Run, junitRun: Run)

  /** A grader: its course, the path it was built with and the lines read from that path. */
  datatype Strategy = Strategy(course: Course, absCodePath: string, fileContents: seq<string>)

  /** The view's choice of grader: class 1 is the Python course, every other class Java. */
  function SelectCourse(classId: int): (c: Course)
    ensures c == ICS3U <==> classId == 1
    ensures c == ICS4U <==> classId != 1
  {
    if classId == 1 then ICS3U else ICS4U
  }

  /** Building a grader reads the file once (`None` when there is no such file) and keeps
      its `splitlines`; a missing file raises FileNotFoundError. */
  function NewStrategy(course: Course, absCodePath: string, file: Option<string>): (r: Result<Strategy>)
    ensures r.Raised? <==> file.None?
    ensures r.Raised? ==> r.error == FileNotFoundError
    ensures r.Ok? ==> r.value.course == course && r.value.absCodePath == absCodePath
    ensures r.Ok? ==> forall k :: 0 <= k < |r.value.fileContents| ==> AllIn(r.value.fileContents[k], NonLineBreak)
  {
    match file
    case None => Raised(FileNotFoundError)
    case Some(text) => Ok(Strategy(course, absCodePath, SplitLines(text)))
  }

  /** The lines of a file written line by line are exactly what the strategy keeps. */
  lemma StoredLines(course: Course, absCodePath: string, lines: seq<string>)
    requires forall k :: 0 <= k < |lines| ==> AllIn(lines[k], NonLineBreak)
    ensures NewStrategy(course, absCodePath, Some(Unlines(lines))) == Ok(Strategy(course, absCodePath, lines))
  {
    SplitLinesUnlines(lines);
  }

  /** `grade_header_comments`: a level between 0 and 4, or the IndexError of a short header. */
  function GradeHeaderComments(s: Strategy): (r: Result<Grade>)
    ensures r.Ok? ==> 0.0 <= r.value.level <= 4.0
    ensures r.Raised? ==> r.error == IndexError
  {
    match s.course
    case ICS3U => ICS3UGrader.HeaderVerdict(s.fileContents)
    case ICS4U => ICS4UGrader.HeaderVerdict(s.fileContents)
  }

  /** `grade_var_names`: a level between 2 and 4. */
  function GradeVarNames(s: Strategy): (g: Grade)
    ensures 2.0 <= g.level <= 4.0
  {
    match s.course
    case ICS3U => ConventionGrade(PyConventions.VarNames(s.fileContents), ICS3UGrader.IsSnakeCase)
    case ICS4U => ConventionGrade(ICS4UGrader.DeclaredNames(s.fileContents), ICS4UGrader.IsCamelCase)
  }

  /** `grade_ipo_comments`: a level between 0 and 4. */
  function GradeIpoComments(s: Strategy): (g: Grade)
    ensures 0.0 <= g.level <= 4.0
  {
    match s.course
    case ICS3U => ICS3UGrader.GradeIpoComments(s.fileContents)
    case ICS4U => ICS4UGrader.GradeIpoComments(s.fileContents)
  }

  /** `grade_unit_test`: a level between 0 and 4, or the exception a missing test file, a
      timed-out JUnit compile or a short JUnit report raises. */
  function GradeUnitTest(s: Strategy, runs: Runs): (r: Result<Grade>)
    ensures r.Ok? ==> 0.0 <= r.value.level <= 4.0
    ensures !runs.testFileFound ==> r == Raised(FileNotFoundError)
    ensures s.course == ICS3U && runs.testFileFound ==> r == Ok(ICS3UGrader.GradeUnitTestAsWritten(runs.pytestOutput))
  {
    match s.course
    case ICS3U => ICS3UGrader.UnitTestResult(runs.testFileFound, runs.pytestOutput)
    case ICS4U => ICS4UGrader.GradeUnitTest(runs.testFileFound, runs.compile, runs.junitCompile, runs.junitRun)
  }

  /** `grade_student`: the course's overall grade, a level between 0 and 4, raising exactly
      when the header or the unit-test check raises. */
  method GradeStudent(s: Strategy, runs: Runs) returns (r: Result<Grade>)
    ensures r.Ok? ==> 0.0 <= r.value.level <= 4.0
    ensures r.Raised? <==> GradeHeaderComments(s).Raised? || GradeUnitTest(s, runs).Raised?
    ensures r.Ok? ==> r.value == StudentGrade(GradeHeaderComments(s).value, GradeIpoComments(s), GradeVarNames(s),
                                              GradeUnitTest(s, runs).value)
  {
    match s.course
    case ICS3U =>
      r := ICS3UGrader.GradeStudent(s.fileContents, runs.testFileFound, runs.pytestOutput);
    case ICS4U =>
      r := ICS4UGrader.GradeStudent(s.fileContents, runs.testFileFound, runs.compile, runs.junitCompile, runs.junitRun);
  }
}
