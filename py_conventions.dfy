/** The Python-side class conventions shared by the ICS3U strategy and the older module-level
    grader: the docstring header lines and the assignment pattern that extracts variable
    names. */
module PyConventions {
  import opened PyText
  import opened Scoring

  const DQ: string := "\"\"\""
  const SQ: string := "'''"
  const DocstringsMissing: string := "Docstrings are missing.\n"
  const WrongQuotes: string := "While ''' works, class conventions are \"\"\"\n"

  /** `re.match(r"author: [a-zA-Z]+", line)`. */
  predicate AuthorLine(line: string)
  {
    StartsWith(line, "author: ") && |line| > 8 && IsLetter(line[8])
  }

  /** `re.match(r"date: \d\d/\d\d/\d\d\d\d", line)`. */
  predicate DateLine(line: string)
  {
    StartsWith(line, "date: ") && DateAt(line, 6)
  }

  /** `re.match(r"\w+", line)`. */
  predicate DescriptionLine(line: string)
  {
    |line| > 0 && IsWordChar(line[0])
  }

  /** `\s*[a-zA-Z0-9_]+\s*=[^=]` tried at `b`: where the match ends, if it matches there.
      Each repetition is followed by something it cannot consume, so the greedy choice is
      the only one that can succeed and no backtracking is needed. */
  function AssignmentEnd(line: string, b: nat): (r: Option<nat>)
    requires b <= |line|
    ensures r.Some? ==> b + 3 <= r.value <= |line| && line[r.value - 2] == '=' && line[r.value - 1] != '='
  {
    var i := Skip(line, b, Space);
    var j := Skip(line, i, Word);
    var k := Skip(line, j, Space);
    if i < j && k + 1 < |line| && line[k] == '=' && line[k + 1] != '=' then Some(k + 2) else None
  }

  /** `re.search` from `b` on: the leftmost start at which the pattern matches, and the end. */
  function SearchAssignment(line: string, b: nat): (r: Option<(nat, nat)>)
    requires b <= |line|
    ensures r.Some? ==> b <= r.value.0 <= |line| && AssignmentEnd(line, r.value.0) == Some(r.value.1)
    decreases |line| - b
  {
    match AssignmentEnd(line, b)
    case Some(e) => Some((b, e))
    case None => if b == |line| then None else SearchAssignment(line, b + 1)
  }

  /** The search finds the leftmost start at which the pattern matches: the pattern matches
      at no position before the one found, nor anywhere when nothing is found. */
  lemma {:induction false} SearchAssignmentLeftmost(line: string, b: nat, c: nat)
    requires b <= c <= |line|
    requires SearchAssignment(line, b).None? || c < SearchAssignment(line, b).value.0
    ensures AssignmentEnd(line, c).None?
    decreases c - b
  {
    if b < c {
      SearchAssignmentLeftmost(line, b + 1, c);
    }
  }

  /** The name a line assigns: the match minus its last two characters, stripped. */
  function AssignedName(line: string): (r: Option<string>)
  {
    match SearchAssignment(line, 0)
    case None => None
    case Some((b, e)) => Some(Strip(line[b..e - 2]))
  }

  /** What the pattern's span holds: whitespace, a run of word characters, whitespace. */
  lemma AssignmentSpan(line: string, b: nat)
    requires b <= |line| && AssignmentEnd(line, b).Some?
    ensures var e := AssignmentEnd(line, b).value;
            var i := Skip(line, b, Space);
            var j := Skip(line, i, Word);
            b <= i < j <= e - 2 && Strip(line[b..e - 2]) == line[i..j]
  {
    var i := Skip(line, b, Space);
    var j := Skip(line, i, Word);
    var k := Skip(line, j, Space);
    assert AssignmentEnd(line, b) == Some(k + 2);
    SkipSpan(line, b, Space);
    SkipSpan(line, i, Word);
    SkipSpan(line, j, Space);
    var lead, w, trail := line[b..i], line[i..j], line[j..k];
    forall q | 0 <= q < |lead| ensures IsSpace(lead[q]) {
      assert lead[q] == line[b + q];
    }
    forall q | 0 <= q < |trail| ensures IsSpace(trail[q]) {
      assert trail[q] == line[j + q];
    }
    assert w[0] == line[i] && w[|w| - 1] == line[j - 1];
    assert IsWordChar(line[i]) && IsWordChar(line[j - 1]);
    assert line[b..k] == lead + w + trail;
    StripPadded(lead, w, trail);
  }

  /** What the pattern's span holds once stripped: a nonempty run of word characters. */
  lemma SpanIsWord(line: string, b: nat)
    requires b <= |line| && AssignmentEnd(line, b).Some?
    ensures var w := Strip(line[b..AssignmentEnd(line, b).value - 2]);
            w != [] && AllIn(w, Word)
  {
    AssignmentSpan(line, b);
    var i := Skip(line, b, Space);
    var j := Skip(line, i, Word);
    SkipSpan(line, i, Word);
    forall k | 0 <= k < j - i ensures InClass(line[i..j][k], Word) {
      assert line[i..j][k] == line[i + k];
    }
  }

  /** An extracted name is a nonempty run of letters, digits and underscores. */
  lemma AssignedNameIsWord(line: string)
    requires AssignedName(line).Some?
    ensures AssignedName(line).value != [] && AllIn(AssignedName(line).value, Word)
  {
    var m := SearchAssignment(line, 0).value;
    SpanIsWord(line, m.0);
  }

  /** A line without "=" assigns nothing. */
  lemma NoEqualsNoName(line: string)
    requires '=' !in line
    ensures AssignedName(line) == None
  {
    forall c | 0 <= c <= |line| ensures AssignmentEnd(line, c).None? {
    }
  }

  /** The pattern matches from the very start of a line that begins with an assignment. */
  lemma AssignmentFromStart(line: string, i: nat, j: nat)
    requires i < j && j + 2 < |line|
    requires forall k :: 0 <= k < i ==> IsSpace(line[k])
    requires forall k :: i <= k < j ==> IsWordChar(line[k])
    requires line[j] == ' ' && line[j + 1] == '=' && line[j + 2] == ' '
    ensures AssignedName(line) == Some(line[i..j])
  {
    AssignmentEndAtStart(line, i, j);
    var e: nat := j + 3;
    assert SearchAssignment(line, 0) == Some((0, e));
    AssignmentSpan(line, 0);
  }

  /** Where the pattern ends when tried at the start of such a line. */
  lemma AssignmentEndAtStart(line: string, i: nat, j: nat)
    requires i < j && j + 2 < |line|
    requires forall k :: 0 <= k < i ==> IsSpace(line[k])
    requires forall k :: i <= k < j ==> IsWordChar(line[k])
    requires line[j] == ' ' && line[j + 1] == '=' && line[j + 2] == ' '
    ensures AssignmentEnd(line, 0) == Some(j + 3)
    ensures Skip(line, 0, Space) == i && Skip(line, i, Word) == j
  {
    SkipChars(line, 0, Space, i);
    SkipChars(line, i, Word, j);
    SkipChars(line, j, Space, j + 1);
  }

  /** `name = value`, indented or not, assigns `name`. */
  lemma SimpleAssignment(indent: string, name: string, value: string)
    requires forall k :: 0 <= k < |indent| ==> IsSpace(indent[k])
    requires name != [] && forall k :: 0 <= k < |name| ==> IsWordChar(name[k])
    ensures AssignedName(indent + name + " = " + value) == Some(name)
  {
    var line := indent + name + " = " + value;
    var i, j := |indent|, |indent| + |name|;
    assert line[..i] == indent && line[i..j] == name && line[j..j + 3] == " = ";
    forall k | 0 <= k < i ensures IsSpace(line[k]) {
      assert line[k] == line[..i][k];
    }
    forall k | i <= k < j ensures IsWordChar(line[k]) {
      assert line[k] == line[i..j][k - i];
    }
    assert line[j] == line[j..j + 3][0];
    assert line[j + 1] == line[j..j + 3][1];
    assert line[j + 2] == line[j..j + 3][2];
    AssignmentFromStart(line, i, j);
  }

  /** The names in file order: each line contributes at most one. */
  function VarNames(lines: seq<string>): (names: seq<string>)
    ensures |names| <= |lines|
    ensures forall n :: n in names ==> n != [] && AllIn(n, Word)
  {
    if lines == [] then []
    else
      var last := lines[|lines| - 1];
      var more := if AssignedName(last).Some? then AssignedNameIsWord(last); [AssignedName(last).value] else [];
      VarNames(lines[..|lines| - 1]) + more
  }

  /** The `for` loop of `grade_var_names` / `_check_variable_names` appending to
      `variables_in_file`. */
  method CollectVarNames(lines: seq<string>) returns (names: seq<string>)
    ensures names == VarNames(lines)
  {
    names := [];
    for i := 0 to |lines|
      invariant names == VarNames(lines[..i])
    {
      assert lines[..i + 1][..i] == lines[..i];
      var found := AssignedName(lines[i]);
      if found.Some? {
        names := names + [found.value];
      }
    }
    assert lines[..|lines|] == lines;
  }
}
