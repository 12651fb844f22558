/** The ICS4U strategy: Java submissions, graded on their Javadoc-style header, camelCase
    variable names, "//" IPO comments and the JUnit console launcher's summary. */
module ICS4UGrader {
  import opened PyText
  import opened Scoring
  import opened IpoPatterns

  // ---------------------------------------------------------------- header comments

  const Opening: string := "/**"
  const HeaderMissing: string := "Header comments are missing.\n"

  /** The lines dropped before the header: blank lines and lines mentioning "import". */
  predicate BeforeHeader(line: string)
  {
    Blank(line) || Contains(line, "import")
  }

  /** ` ?\* ` at the start of a line: where the rest of the pattern goes on. A leading space
      can only be the optional one when "*" follows it, so the greedy choice decides. */
  function AfterStar(line: string): (r: Option<nat>)
    ensures r.Some? ==> (r.value == 2 || r.value == 3) && r.value <= |line| && line[r.value - 2] == '*'
    ensures r == Some(2) <==> |line| >= 2 && line[0] == '*' && line[1] == ' '
    ensures r == Some(3) <==> |line| >= 3 && line[0] == ' ' && line[1] == '*' && line[2] == ' '
  {
    var i := if |line| > 0 && line[0] == ' ' then 1 else 0;
    if i + 1 < |line| && line[i] == '*' && line[i + 1] == ' ' then Some(i + 2) else None
  }

  /** `c?`: past `c` when it comes next. */
  function Optional(line: string, i: nat, c: char): (j: nat)
    ensures j == i || (j == i + 1 && i < |line| && line[i] == c)
  {
    if i < |line| && line[i] == c then i + 1 else i
  }

  /** `[Aa]uthor` and the like: `initial` in either case, then `rest`, at `i`. */
  predicate KeywordAt(line: string, i: nat, initial: char, rest: string)
  {
    i + 1 + |rest| <= |line| && (line[i] == initial || line[i] == LowerChar(initial))
    && line[i + 1..i + 1 + |rest|] == rest
  }

  /** `re.match(r" ?\* @?[Aa]uthor:? [a-zA-Z]+", line)`. "@" and ":" are each followed by
      something they are not, so taking them when present decides the match. */
  predicate AuthorLine(line: string)
  {
    match AfterStar(line)
    case None => false
    case Some(i) =>
      var j := Optional(line, i, '@');
      KeywordAt(line, j, 'A', "uthor") &&
      var k := Optional(line, j + 6, ':');
      k + 1 < |line| && line[k] == ' ' && IsLetter(line[k + 1])
  }

  /** `re.match(r" ?\* @?[Dd]ate:? \d\d/\d\d/\d\d\d\d", line)`. */
  predicate DateLine(line: string)
  {
    match AfterStar(line)
    case None => false
    case Some(i) =>
      var j := Optional(line, i, '@');
      KeywordAt(line, j, 'D', "ate") &&
      var k := Optional(line, j + 4, ':');
      k < |line| && line[k] == ' ' && DateAt(line, k + 1)
  }

  /** `re.match(r" ?\* \w+", line)`. */
  predicate DescriptionLine(line: string)
  {
    match AfterStar(line)
    case None => false
    case Some(i) => i < |line| && IsWordChar(line[i])
  }

  /** The line closes the comment: with its spaces removed it contains "*" then "/". */
  predicate Closes(line: string)
  {
    Contains(RemoveChar(line, ' '), "*/")
  }

  /** The level-2 comment of a Javadoc-style header: the complaints about its metadata lines, or,
      when there are none, that it is not closed. */
  function HeaderComplaint(author: string, date: string, description: string): (c: string)
  {
    var complaints := MetadataComplaints(AuthorLine(author), DateLine(date), DescriptionLine(description));
    if complaints != "" then complaints else NotClosed + "\n"
  }

  /** What `grade_header_comments` returns, or the IndexError it raises on a short header. */
  function HeaderVerdict(fileContents: seq<string>): (r: Result<Grade>)
    ensures r.Ok? ==> r.value.level == 0.0 || r.value.level == 2.0 || r.value.level == 4.0
    ensures r.Ok? && r.value.level == 0.0 <==>
              var fc := DropWhile(fileContents, BeforeHeader); fc == [] || fc[0] != Opening
    ensures r.Ok? && r.value.level == 4.0 <==>
              var fc := DropWhile(fileContents, BeforeHeader);
              |fc| >= 5 && fc[0] == Opening && AuthorLine(fc[1]) && DateLine(fc[2]) && DescriptionLine(fc[3])
              && Closes(fc[4])
    ensures r.Raised? <==>
              var fc := DropWhile(fileContents, BeforeHeader);
              fc != [] && fc[0] == Opening && |fc| < 5
              && (|fc| < 4 || (AuthorLine(fc[1]) && DateLine(fc[2]) && DescriptionLine(fc[3])))
    ensures r.Raised? ==> r.error == IndexError
    ensures r.Ok? && r.value.level == 0.0 ==>
              r.value.comment == if DropWhile(fileContents, BeforeHeader) == [] then BlankFile else HeaderMissing
    ensures r.Ok? && r.value.level == 2.0 ==>
              var fc := DropWhile(fileContents, BeforeHeader);
              |fc| >= 4 && r.value.comment == HeaderComplaint(fc[1], fc[2], fc[3])
    ensures r.Ok? && r.value.level == 4.0 ==> r.value.comment == HeaderGood
  {
    var fc := DropWhile(fileContents, BeforeHeader);
    if fc == [] then Ok(Grade(0.0, BlankFile))
    else if fc[0] != Opening then Ok(Grade(0.0, HeaderMissing))
    else if |fc| < 4 then Raised(IndexError)
    else
      var comment := MetadataComplaints(AuthorLine(fc[1]), DateLine(fc[2]), DescriptionLine(fc[3]));
      if comment != "" then Ok(Grade(2.0, comment))
      else if |fc| < 5 then Raised(IndexError)
      else if !Closes(fc[4]) then Ok(Grade(2.0, NotClosed + "\n"))
      else Ok(Grade(4.0, HeaderGood))
  }

  /** Blank and import lines before the header do not change its grade. */
  lemma ImportsBeforeHeaderIgnored(skipped: seq<string>, lines: seq<string>)
    requires forall k :: 0 <= k < |skipped| ==> BeforeHeader(skipped[k])
    ensures HeaderVerdict(skipped + lines) == HeaderVerdict(lines)
  {
    DropWhilePrefix(skipped, lines, BeforeHeader);
  }

  /** Only blank and import lines are skipped: a file that opens with its package
      declaration has its header hidden behind that line and is graded as having none. */
  lemma PackageLineHidesHeader(header: seq<string>)
    ensures HeaderVerdict(["package p;"] + header) == Ok(Grade(0.0, HeaderMissing))
  {
    var first := "package p;";
    StripTrims(first);
    assert !IsSpace(first[0]);
    FirstCharAbsent(first, "import");
    assert !BeforeHeader(first);
    assert DropWhile([first] + header, BeforeHeader) == [first] + header;
    assert ([first] + header)[0] == first != Opening;
  }

  /** `grade_header_comments`: the checks in order, the complaints about the metadata lines
      collected into one comment. */
  method GradeHeaderComments(fileContents: seq<string>) returns (r: Result<Grade>)
    ensures r == HeaderVerdict(fileContents)
  {
    var fc := DropWhile(fileContents, BeforeHeader);
    if fc == [] {
      return Ok(Grade(0.0, BlankFile));
    }
    if fc[0] != Opening {
      return Ok(Grade(0.0, HeaderMissing));
    }
    if |fc| < 4 {
      return Raised(IndexError);
    }
    var comment := CollectComplaints(AuthorLine(fc[1]), DateLine(fc[2]), DescriptionLine(fc[3]));
    if comment != "" {
      return Ok(Grade(2.0, comment));
    }
    if |fc| < 5 {
      return Raised(IndexError);
    }
    if !Closes(fc[4]) {
      return Ok(Grade(2.0, NotClosed + "\n"));
    }
    return Ok(Grade(4.0, HeaderGood));
  }

  /** The author pattern on typical Javadoc lines: "@" and ":" are optional. */
  lemma AuthorExamples()
    ensures AuthorLine(" * @author Jane") && AuthorLine("* Author: Bob")
  {
    assert " * @author Jane"[5..10] == "uthor";
    assert "* Author: Bob"[3..8] == "uthor";
  }

  /** The space after the author keyword is required, and so is the leading "*". */
  lemma AuthorCounterExamples()
    ensures !AuthorLine(" * @author:Jane") && !AuthorLine("// author Jane")
  {
    assert " * @author:Jane"[5..10] == "uthor";
  }

  /** The date and description patterns on typical Javadoc lines. */
  lemma DateDescriptionExamples()
    ensures DateLine(" * @date 01/02/2023") && DescriptionLine(" * Computes areas")
  {
    assert " * @date 01/02/2023"[5..8] == "ate";
  }

  /** A closing line may have spaces anywhere, even between "*" and "/". */
  lemma ClosingExamples()
    ensures Closes(" */") && Closes("* /") && !Closes(" *")
  {
    assert RemoveChar(" */", ' ') == "*/";
    assert OccursAt("*/", "*/", 0);
    assert RemoveChar("* /", ' ') == "*/";
    assert RemoveChar(" *", ' ') == "*";
  }

  // ---------------------------------------------------------------- variable names

  /** `[a-zA-Z_$]`: a character that can start a Java identifier. */
  predicate IdentStart(c: char)
  {
    IsLetter(c) || c == '_' || c == '$'
  }

  /** Where the parts of a declaration lie in a line: indentation before `typeStart`, the type
      up to `typeEnd`, one space, the identifier up to `nameEnd`, whitespace up to `sepAt` and
      the "=" or ";" at `sepAt`, where the match ends. */
  datatype Declaration = Declaration(typeStart: nat, typeEnd: nat, nameEnd: nat, sepAt: nat)

  /** `re.search(r"^\s*[a-zA-Z]+ ([a-zA-Z_$][\w$]*)\s*[=;]", line)`. Without MULTILINE the `^`
      pins the match to the start of the line, and each repetition is followed by something it
      cannot consume, so the greedy choice is the only one. The identifier's first character is
      also an identifier character, so its run is skipped from there. */
  function MatchDeclaration(line: string): (r: Option<Declaration>)
    ensures r.Some? ==> LaidOut(line, r.value)
  {
    var a := Skip(line, 0, Space);
    var b := Skip(line, a, Letter);
    if a < b && b + 1 < |line| && line[b] == ' ' && IdentStart(line[b + 1]) then
      assert InClass(line[b + 1], JavaIdent);
      var d := Skip(line, b + 1, JavaIdent);
      var k := Skip(line, d, Space);
      if k < |line| && (line[k] == '=' || line[k] == ';') then Some(Declaration(a, b, d, k)) else None
    else None
  }

  /** The parts of `m` lie in `line` as the pattern reads them: each part ends where its
      character class stops, the type is followed by one space and an identifier start, and an
      "=" or ";" ends the match. */
  predicate LaidOut(line: string, m: Declaration)
  {
    m.typeStart < m.typeEnd && m.typeEnd + 2 <= m.nameEnd <= m.sepAt < |line|
    && Skip(line, 0, Space) == m.typeStart && Skip(line, m.typeStart, Letter) == m.typeEnd
    && line[m.typeEnd] == ' ' && IdentStart(line[m.typeEnd + 1])
    && Skip(line, m.typeEnd + 1, JavaIdent) == m.nameEnd && Skip(line, m.nameEnd, Space) == m.sepAt
    && (line[m.sepAt] == '=' || line[m.sepAt] == ';')
  }

  /** The pattern matches exactly the layouts of a declaration. */
  lemma MatchLaidOut(line: string, m: Declaration)
    ensures MatchDeclaration(line) == Some(m) <==> LaidOut(line, m)
  {
  }

  /** `strip` removes only the indentation from the matched text. */
  lemma {:induction false} StrippedMatch(line: string, m: Declaration)
    requires LaidOut(line, m)
    ensures Strip(line[..m.sepAt + 1]) == line[m.typeStart..m.sepAt + 1]
  {
    StripPrefix(line, m.sepAt + 1);
  }

  /** The first part `split` finds in the stripped match is the type. */
  lemma {:induction false} TypeWord(line: string, m: Declaration)
    requires LaidOut(line, m)
    ensures Split(line[m.typeStart..m.sepAt + 1])
            == [line[m.typeStart..m.typeEnd]] + Split(line[m.typeEnd..m.sepAt + 1])
  {
    SkipThrough(line, m.typeStart, Letter);
    assert Skip(line, m.typeEnd, NonSpace) == m.typeEnd;
    assert Skip(line, m.typeStart, Space) == m.typeStart;
    SplitWord(line, m.typeStart, m.typeStart, m.typeEnd, m.sepAt + 1);
  }

  /** With nothing between the identifier and the "=" or ";", the rest of the stripped match is
      one part: the identifier with that character. */
  lemma {:induction false} NameTouchesSeparator(line: string, m: Declaration)
    requires LaidOut(line, m) && m.nameEnd == m.sepAt
    ensures Split(line[m.typeEnd..m.sepAt + 1]) == [line[m.typeEnd + 1..m.sepAt + 1]]
  {
    SkipThrough(line, m.typeEnd + 1, JavaIdent);
    NameTouching(line, m);
  }

  /** With whitespace between them, the rest of the stripped match is the identifier and then
      the "=" or ";" on its own. */
  lemma {:induction false} NameBeforeSeparator(line: string, m: Declaration)
    requires LaidOut(line, m) && m.nameEnd < m.sepAt
    ensures Split(line[m.typeEnd..m.sepAt + 1]) == [line[m.typeEnd + 1..m.nameEnd], [line[m.sepAt]]]
  {
    SkipThrough(line, m.typeEnd + 1, JavaIdent);
    assert IsSpace(line[m.nameEnd]);
    NameSpaced(line, m);
  }

  /** The second part of the stripped, split match: the identifier, with the "=" or ";" when
      nothing comes between them. */
  lemma {:induction false} SecondPart(line: string, m: Declaration)
    requires LaidOut(line, m)
    ensures |Split(Strip(line[..m.sepAt + 1]))| >= 2
    ensures Split(Strip(line[..m.sepAt + 1]))[1]
            == if m.nameEnd == m.sepAt then line[m.typeEnd + 1..m.sepAt + 1] else line[m.typeEnd + 1..m.nameEnd]
  {
    StrippedMatch(line, m);
    TypeWord(line, m);
    if m.nameEnd == m.sepAt {
      NameTouchesSeparator(line, m);
    } else {
      NameBeforeSeparator(line, m);
    }
  }

  /** " name=" or " name;": one part, the identifier with the character after it. */
  lemma {:induction false} NameTouching(line: string, m: Declaration)
    requires m.typeEnd + 2 <= m.sepAt < |line| && line[m.typeEnd] == ' ' && !IsSpace(line[m.typeEnd + 1])
    requires Skip(line, m.typeEnd + 1, NonSpace) == Skip(line, m.sepAt, NonSpace) && !IsSpace(line[m.sepAt])
    ensures Split(line[m.typeEnd..m.sepAt + 1]) == [line[m.typeEnd + 1..m.sepAt + 1]]
  {
    var b, k := m.typeEnd, m.sepAt;
    assert Skip(line, b, Space) == b + 1;
    assert k + 1 <= Skip(line, k, NonSpace);
    SplitWord(line, b, b + 1, k + 1, k + 1);
    assert Split(line[k + 1..k + 1]) == [];
  }

  /** " name =" or " name ;": the identifier, then the "=" or ";" on its own. */
  lemma {:induction false} NameSpaced(line: string, m: Declaration)
    requires m.typeEnd + 2 <= m.nameEnd < m.sepAt < |line|
    requires line[m.typeEnd] == ' ' && !IsSpace(line[m.typeEnd + 1])
    requires Skip(line, m.typeEnd + 1, NonSpace) == Skip(line, m.nameEnd, NonSpace) && IsSpace(line[m.nameEnd])
    requires Skip(line, m.nameEnd, Space) == m.sepAt && !IsSpace(line[m.sepAt])
    ensures Split(line[m.typeEnd..m.sepAt + 1]) == [line[m.typeEnd + 1..m.nameEnd], [line[m.sepAt]]]
  {
    var b, d, k := m.typeEnd, m.nameEnd, m.sepAt;
    assert Skip(line, b, Space) == b + 1;
    assert Skip(line, d, NonSpace) == d;
    SplitWordThenSingle(line, b, b + 1, d, k);
  }

  /** The name `grade_var_names` records for a line: the matched text stripped and split on
      whitespace, its second part with a trailing ";" removed. */
  function DeclaredName(line: string): (r: Option<string>)
  {
    match MatchDeclaration(line)
    case None => None
    case Some(m) => Some(RecordedText(line, m))
  }

  /** `line[beginning:end].strip().split()[1].removesuffix(";")` for a match with parts `m`. */
  function RecordedText(line: string, m: Declaration): string
    requires LaidOut(line, m)
  {
    SecondPart(line, m);
    RemoveSuffix(Split(Strip(line[..m.sepAt + 1]))[1], ";")
  }

  /** `removesuffix(";")` on the second part: the ";" goes, an "=" stays. */
  lemma {:induction false} SecondPartSuffix(ident: string, sep: char)
    requires ident != [] && AllIn(ident, JavaIdent) && (sep == '=' || sep == ';')
    ensures RemoveSuffix(ident, ";") == ident
    ensures RemoveSuffix(ident + [sep], ";") == if sep == '=' then ident + "=" else ident
  {
    var last := ident[|ident| - 1];
    assert InClass(last, JavaIdent);
    assert ident[|ident| - 1..] == [last];
    var token := ident + [sep];
    assert token[|token| - 1..] == [sep];
    assert token[..|token| - 1] == ident;
  }

  /** The identifier the pattern captures is a nonempty run of identifier characters with an
      identifier start. */
  lemma {:induction false} CapturedIdentifier(line: string, m: Declaration)
    requires LaidOut(line, m)
    ensures var ident := line[m.typeEnd + 1..m.nameEnd];
            ident != [] && IdentStart(ident[0]) && AllIn(ident, JavaIdent)
  {
    SkipSlice(line, m.typeEnd + 1, JavaIdent);
  }

  /** The recorded name of a match: the identifier, followed by "=" exactly when "=" comes right
      after it. */
  lemma {:induction false} RecordedName(line: string, m: Declaration)
    requires LaidOut(line, m)
    ensures var ident := line[m.typeEnd + 1..m.nameEnd];
            RecordedText(line, m) == if line[m.nameEnd] == '=' then ident + "=" else ident
  {
    if m.nameEnd == m.sepAt {
      RecordedTouching(line, m);
    } else {
      RecordedSpaced(line, m);
    }
  }

  /** With the "=" or ";" right after the identifier, `removesuffix` drops a ";" and keeps an "=". */
  lemma {:induction false} RecordedTouching(line: string, m: Declaration)
    requires LaidOut(line, m) && m.nameEnd == m.sepAt
    ensures var ident := line[m.typeEnd + 1..m.nameEnd];
            RecordedText(line, m) == if line[m.nameEnd] == '=' then ident + "=" else ident
  {
    var ident := line[m.typeEnd + 1..m.nameEnd];
    TouchingToken(line, m);
    CapturedIdentifier(line, m);
    SliceExtend(line, m.typeEnd + 1, m.sepAt);
    SecondPartSuffix(ident, line[m.sepAt]);
  }

  /** With the separator right after the identifier, the second part runs through the separator. */
  lemma {:induction false} TouchingToken(line: string, m: Declaration)
    requires LaidOut(line, m) && m.nameEnd == m.sepAt
    ensures RecordedText(line, m) == RemoveSuffix(line[m.typeEnd + 1..m.sepAt + 1], ";")
  {
    SecondPart(line, m);
  }

  /** With whitespace after the identifier, the second part is the identifier alone. */
  lemma {:induction false} RecordedSpaced(line: string, m: Declaration)
    requires LaidOut(line, m) && m.nameEnd < m.sepAt
    ensures RecordedText(line, m) == line[m.typeEnd + 1..m.nameEnd]
    ensures line[m.nameEnd] != '='
  {
    SecondPart(line, m);
    CapturedIdentifier(line, m);
    SecondPartSuffix(line[m.typeEnd + 1..m.nameEnd], line[m.sepAt]);
    assert IsSpace(line[m.nameEnd]);
  }

  /** The name recorded for a line the pattern matches with parts `m`. */
  lemma {:induction false} DeclaredNameOf(line: string, m: Declaration)
    requires LaidOut(line, m)
    ensures DeclaredName(line)
            == Some(if line[m.nameEnd] == '=' then line[m.typeEnd + 1..m.nameEnd] + "=" else line[m.typeEnd + 1..m.nameEnd])
  {
    MatchLaidOut(line, m);
    RecordedName(line, m);
  }

  /** A line yields a name exactly when the pattern matches it, and the name is the identifier
      the pattern captures, followed by "=" exactly when "=" comes right after it. */
  lemma {:induction false} DeclaredNameShape(line: string)
    ensures DeclaredName(line).Some? <==> MatchDeclaration(line).Some?
    ensures MatchDeclaration(line).Some? ==>
              var m := MatchDeclaration(line).value;
              var ident := line[m.typeEnd + 1..m.nameEnd];
              ident != [] && IdentStart(ident[0]) && AllIn(ident, JavaIdent)
              && DeclaredName(line).value == if line[m.nameEnd] == '=' then ident + "=" else ident
  {
    if MatchDeclaration(line).Some? {
      ShapeOfMatch(line, MatchDeclaration(line).value);
    }
  }

  /** `DeclaredNameShape` for a match given by value. */
  lemma {:induction false} ShapeOfMatch(line: string, m: Declaration)
    requires MatchDeclaration(line) == Some(m)
    ensures var ident := line[m.typeEnd + 1..m.nameEnd];
            ident != [] && IdentStart(ident[0]) && AllIn(ident, JavaIdent)
            && DeclaredName(line) == Some(if line[m.nameEnd] == '=' then ident + "=" else ident)
  {
    MatchLaidOut(line, m);
    CapturedIdentifier(line, m);
    DeclaredNameOf(line, m);
  }

  /** `type name = value;`, `type name=value;` and `type name;`: the recorded name, with the
      "=" kept when it follows the name directly. */
  lemma {:induction false} SimpleDeclaration(indent: string, ty: string, name: string, gap: string, sep: char, rest: string)
    requires AllIn(indent, Space) && ty != [] && AllIn(ty, Letter)
    requires name != [] && IdentStart(name[0]) && AllIn(name, JavaIdent)
    requires AllIn(gap, Space) && (sep == '=' || sep == ';')
    ensures DeclaredName(BuiltDeclaration(indent, ty, name, gap, sep, rest))
            == Some(if gap == [] && sep == '=' then name + "=" else name)
  {
    var line := BuiltDeclaration(indent, ty, name, gap, sep, rest);
    var b := |indent| + |ty|;
    var d := b + 1 + |name|;
    DeclarationLayout(indent, ty, name, gap, sep, rest);
    BuiltName(indent, ty, name, gap, sep, rest);
    NameFromLayout(line, Declaration(|indent|, b, d, d + |gap|), name, gap == [] && sep == '=');
  }

  /** `DeclaredNameOf` with the identifier and the test for "=" given by value. */
  lemma {:induction false} NameFromLayout(line: string, m: Declaration, name: string, touchesEquals: bool)
    requires LaidOut(line, m) && line[m.typeEnd + 1..m.nameEnd] == name
    requires (line[m.nameEnd] == '=') == touchesEquals
    ensures DeclaredName(line) == Some(if touchesEquals then name + "=" else name)
  {
    DeclaredNameOf(line, m);
  }

  /** The identifier's place in a line built from a declaration's parts holds the name. */
  lemma {:induction false} BuiltName(indent: string, ty: string, name: string, gap: string, sep: char, rest: string)
    ensures var b := |indent| + |ty|;
            BuiltDeclaration(indent, ty, name, gap, sep, rest)[b + 1..b + 1 + |name|] == name
  {
    var afterName := gap + ([sep] + rest);
    var afterType := " " + (name + afterName);
    SliceAfter(indent, ty + afterType, |ty| + 1, |ty| + 1 + |name|);
    SliceAfter(ty, afterType, 1, 1 + |name|);
    SliceAfter(" ", name + afterName, 0, |name|);
    assert (name + afterName)[0..|name|] == name;
  }

  /** A line built from a declaration's parts, with the parts nested to the right. */
  function BuiltDeclaration(indent: string, ty: string, name: string, gap: string, sep: char, rest: string): (line: string)
    ensures |line| == |indent| + |ty| + 1 + |name| + |gap| + 1 + |rest|
  {
    indent + (ty + (" " + (name + (gap + ([sep] + rest)))))
  }

  /** Where the parts of a line built from a declaration's parts lie. */
  lemma {:induction false} DeclarationLayout(indent: string, ty: string, name: string, gap: string, sep: char, rest: string)
    requires AllIn(indent, Space) && ty != [] && AllIn(ty, Letter)
    requires name != [] && IdentStart(name[0]) && AllIn(name, JavaIdent)
    requires AllIn(gap, Space) && (sep == '=' || sep == ';')
    ensures var line := BuiltDeclaration(indent, ty, name, gap, sep, rest);
            var b := |indent| + |ty|;
            var d := b + 1 + |name|;
            LaidOut(line, Declaration(|indent|, b, d, d + |gap|))
            && (line[d] == '=' <==> gap == [] && sep == '=')
  {
    var line := BuiltDeclaration(indent, ty, name, gap, sep, rest);
    var b := |indent| + |ty|;
    var d := b + 1 + |name|;
    LayoutType(indent, ty, name, gap, sep, rest);
    LayoutName(indent, ty, name, gap, sep, rest);
    LayoutGap(indent, ty, name, gap, sep, rest);
    assert line[b] == ' ' && line[b + 1] == name[0];
    assert line[d + |gap|] == sep;
    assert line[d] == (gap + ([sep] + rest))[0];
  }

  /** The indentation and the type end where the pattern's first two runs stop. */
  lemma {:induction false} LayoutType(indent: string, ty: string, name: string, gap: string, sep: char, rest: string)
    requires AllIn(indent, Space) && ty != [] && AllIn(ty, Letter)
    ensures var line := BuiltDeclaration(indent, ty, name, gap, sep, rest);
            Skip(line, 0, Space) == |indent| && Skip(line, |indent|, Letter) == |indent| + |ty|
  {
    var afterType := " " + (name + (gap + ([sep] + rest)));
    assert InClass(ty[0], Letter);
    SkipWhole(indent, ty + afterType, Space);
    SkipAfter(indent, ty + afterType, 0, Letter);
    SkipWhole(ty, afterType, Letter);
  }

  /** The identifier ends where the pattern's identifier run stops. */
  lemma {:induction false} LayoutName(indent: string, ty: string, name: string, gap: string, sep: char, rest: string)
    requires name != [] && AllIn(name, JavaIdent) && AllIn(gap, Space) && (sep == '=' || sep == ';')
    ensures var line := BuiltDeclaration(indent, ty, name, gap, sep, rest);
            var b := |indent| + |ty|;
            Skip(line, b + 1, JavaIdent) == b + 1 + |name|
  {
    var tail := ty + (" " + (name + (gap + ([sep] + rest))));
    SkipAfter(indent, tail, |ty| + 1, JavaIdent);
    NameInTail(ty, name, gap, sep, rest);
  }

  /** `LayoutName` for the line without its indentation. */
  lemma {:induction false} NameInTail(ty: string, name: string, gap: string, sep: char, rest: string)
    requires name != [] && AllIn(name, JavaIdent) && AllIn(gap, Space) && (sep == '=' || sep == ';')
    ensures Skip(ty + (" " + (name + (gap + ([sep] + rest)))), |ty| + 1, JavaIdent) == |ty| + 1 + |name|
  {
    var afterName := gap + ([sep] + rest);
    var afterSpace := name + afterName;
    SkipAfter(ty, " " + afterSpace, 1, JavaIdent);
    SkipAfter(" ", afterSpace, 0, JavaIdent);
    assert afterName[0] == if gap == [] then sep else gap[0];
    SkipWhole(name, afterName, JavaIdent);
  }

  /** The whitespace after the identifier ends at the "=" or ";". */
  lemma {:induction false} LayoutGap(indent: string, ty: string, name: string, gap: string, sep: char, rest: string)
    requires AllIn(gap, Space) && (sep == '=' || sep == ';')
    ensures var line := BuiltDeclaration(indent, ty, name, gap, sep, rest);
            var d := |indent| + |ty| + 1 + |name|;
            Skip(line, d, Space) == d + |gap|
  {
    var tail := ty + (" " + (name + (gap + ([sep] + rest))));
    SkipAfter(indent, tail, |ty| + 1 + |name|, Space);
    GapInTail(ty, name, gap, sep, rest);
  }

  /** `LayoutGap` for the line without its indentation. */
  lemma {:induction false} GapInTail(ty: string, name: string, gap: string, sep: char, rest: string)
    requires AllIn(gap, Space) && (sep == '=' || sep == ';')
    ensures Skip(ty + (" " + (name + (gap + ([sep] + rest)))), |ty| + 1 + |name|, Space) == |ty| + 1 + |name| + |gap|
  {
    var afterName := gap + ([sep] + rest);
    var afterSpace := name + afterName;
    SkipAfter(ty, " " + afterSpace, 1 + |name|, Space);
    SkipAfter(" ", afterSpace, |name|, Space);
    SkipAfter(name, afterName, 0, Space);
    SkipWhole(gap, [sep] + rest, Space);
  }

  /** The names in file order: each line contributes at most one. */
  function DeclaredNames(lines: seq<string>): (names: seq<string>)
    ensures |names| <= |lines|
    ensures forall n :: n in names ==> n != [] && IdentStart(n[0])
  {
    if lines == [] then []
    else
      var last := lines[|lines| - 1];
      var more := if DeclaredName(last).Some? then DeclaredNameShape(last); [DeclaredName(last).value] else [];
      DeclaredNames(lines[..|lines| - 1]) + more
  }

  /** The `for` loop of `grade_var_names` appending to `variables_in_file`. */
  method CollectDeclaredNames(lines: seq<string>) returns (names: seq<string>)
    ensures names == DeclaredNames(lines)
  {
    names := [];
    for i := 0 to |lines|
      invariant names == DeclaredNames(lines[..i])
    {
      assert lines[..i + 1][..i] == lines[..i];
      var found := DeclaredName(lines[i]);
      if found.Some? {
        names := names + [found.value];
      }
    }
    assert lines[..|lines|] == lines;
  }

  /** `__is_camel_case`: all capitals, or no capital first and no underscore. Names are never
      empty, so `var[0]` always exists. */
  predicate IsCamelCase(name: string)
  {
    PyIsUpper(name) || (name != [] && !IsUpperChar(name[0]) && '_' !in name)
  }

  /** The "=" that sticks to a name changes nothing in the casing verdict. */
  lemma CamelCaseIgnoresEquals(name: string)
    requires name != []
    ensures IsCamelCase(name + "=") <==> IsCamelCase(name)
  {
    var n := name + "=";
    assert n[0] == name[0];
    assert PyIsUpper(n) <==> PyIsUpper(name) by {
      assert forall k :: 0 <= k < |name| ==> n[k] == name[k];
      assert !IsLowerChar(n[|name|]) && !IsUpperChar(n[|name|]);
    }
    assert ('_' in n) <==> ('_' in name) by {
      assert n == name + ['='];
    }
  }

  /** The casing rule on typical names. */
  lemma CamelCaseExamples()
    ensures IsCamelCase("numApples") && IsCamelCase("MAX_SIZE") && IsCamelCase("x")
    ensures !IsCamelCase("NumApples") && !IsCamelCase("num_apples")
  {
    assert IsUpperChar("MAX_SIZE"[0]);
    assert IsLowerChar("NumApples"[1]);
    assert "num_apples"[3] == '_';
  }

  /** `grade_var_names`. */
  method GradeVarNames(fileContents: seq<string>) returns (g: Grade)
    ensures g == ConventionGrade(DeclaredNames(fileContents), IsCamelCase)
    ensures g.level == 4.0 <==> forall n :: n in DeclaredNames(fileContents) ==> IsCamelCase(n)
    ensures 2.0 <= g.level <= 4.0
  {
    var names := CollectDeclaredNames(fileContents);
    g := ConventionGrade(names, IsCamelCase);
  }

  // ---------------------------------------------------------------- IPO comments

  const Ipo: Style := Style("//", true, true)

  /** `grade_ipo_comments`: "//" headings, either case, each alone on its line. */
  function GradeIpoComments(fileContents: seq<string>): (g: Grade)
    ensures g.level == 0.0 || g.level == 2.0 || g.level == 4.0
    ensures g.level == 4.0 <==>
              Found(SearchText(fileContents), Ipo, Input)
              && ((Found(SearchText(fileContents), Ipo, Processing) && Found(SearchText(fileContents), Ipo, Output))
                  || Found(SearchText(fileContents), Ipo, ProcessingOutput))
  {
    GradeIpo(fileContents, Ipo, "\n")
  }

  /** "// input" and "//processing / output" are headings of the ICS4U style. */
  lemma IpoHeadingTexts()
    ensures HeadingAt("// input", 0, Ipo, Input)
    ensures HeadingAt("//processing / output", 0, Ipo, ProcessingOutput)
  {
    assert CharsAt("// input", 0, "//") && CharsAt("// input", 4, "nput");
    var t := "//processing / output";
    assert CharsAt(t, 0, "//") && CharsAt(t, 3, "rocessing");
    assert t[12] == ' ' && t[13] == '/' && t[14] == ' ';
    assert CharsAt(t, 16, "utput");
  }

  /** An input heading and a combined processing/output heading, each on a line of its own,
      give full marks. */
  lemma IpoCombinedHeadings(fileContents: seq<string>, i: nat, po: nat)
    requires i < |fileContents| && po < |fileContents|
    requires Lower(Strip(fileContents[i])) == "// input"
    requires Lower(Strip(fileContents[po])) == "//processing / output"
    ensures GradeIpoComments(fileContents).level == 4.0
  {
    IpoHeadingTexts();
    HeadingLineFound(fileContents, i, Ipo, Input);
    HeadingLineFound(fileContents, po, Ipo, ProcessingOutput);
  }

  /** A file without a single "/" has no IPO comments. */
  lemma NoSlashNoIpo(fileContents: seq<string>)
    requires forall l :: l in fileContents ==> '/' !in l
    ensures GradeIpoComments(fileContents).level == 0.0
  {
    forall h ensures !Found(SearchText(fileContents), Ipo, h) {
      NoMarkerInLines(fileContents, Ipo, h);
    }
  }

  // ---------------------------------------------------------------- unit tests

  const JunitTimeout: string := "I think you have an infinite loop in your code (OR infinite recursion!)"
  const NoTestsGuidance: string :=
    "\n\nTwo possible problems.\n"
    + "1) Your code does not run (try running it in Eclipse. If it doesn't run there, it won't run on pycs.\n"
    + "2) We are in a functions unit and you didn't name your functions correctly. Please double check your function names."

  /** `_does_code_compile`: whether `javac` succeeded, with its output; no message after a
      timeout. */
  function CompileResult(javac: Run): (r: (bool, Option<string>))
    ensures r.0 <==> javac.Exited? && javac.returncode == 0
    ensures r.1.None? <==> javac.Timeout?
    ensures javac.Exited? ==> r.1 == Some(if r.0 then javac.stdout else javac.stderr)
  {
    match javac
    case Timeout => (false, None)
    case Exited(rc, out, err) => if rc == 0 then (true, Some(out)) else (false, Some(err))
  }

  /** `f"{err_message}"`: `None` prints as "None". */
  function Format(m: Option<string>): string
  {
    match m
    case None => "None"
    case Some(s) => s
  }

  /** `_run_junit`: `javac` on the code and the tests, then the JUnit console launcher. Only the
      compilation is guarded, so a launcher that times out raises TimeoutExpired. */
  function JunitResult(javac: Run, java: Run): (r: Result<(bool, string)>)
    ensures r.Raised? <==> javac.Exited? && javac.returncode == 0 && java.Timeout?
    ensures r.Raised? ==> r.error == TimeoutExpired
    ensures r.Ok? && r.value.0 <==> javac.Exited? && javac.returncode == 0 && java.Exited?
    ensures r.Ok? && r.value.0 ==> r.value.1 == java.stdout
  {
    match javac
    case Timeout => Ok((false, JunitTimeout))
    case Exited(rc, _, err) =>
      if rc != 0 then Ok((false, err))
      else
        match java
        case Timeout => Raised(TimeoutExpired)
        case Exited(_, out, _) => Ok((true, out))
  }

  /** `__find_number_in_str` from position `i`: the value of the first run of digits. */
  function FindNumberFrom(s: string, i: nat): nat
    requires i <= |s|
    decreases |s| - i
  {
    if i == |s| then 0
    else if IsDigit(s[i]) then
      var e := Skip(s, i, Digit);
      SkipSpan(s, i, Digit);
      assert forall k :: 0 <= k < e - i ==> IsDigit(s[i..e][k]) by {
        forall k | 0 <= k < e - i ensures IsDigit(s[i..e][k]) {
          assert s[i..e][k] == s[i + k];
        }
      }
      DecimalValue(s[i..e])
    else FindNumberFrom(s, i + 1)
  }

  /** `__find_number_in_str`: `re.search(r"\d+", s)` read as an integer, or 0 when the line
      holds no digit. */
  function FindNumber(s: string): nat
  {
    FindNumberFrom(s, 0)
  }

  /** Characters that are not digits are passed over. */
  lemma {:induction false} FindNumberSkips(s: string, i: nat, j: nat)
    requires i <= j <= |s|
    requires forall k :: i <= k < j ==> !IsDigit(s[k])
    ensures FindNumberFrom(s, i) == FindNumberFrom(s, j)
    decreases j - i
  {
    if i < j {
      FindNumberSkips(s, i + 1, j);
    }
  }

  /** The number printed on a line is the number read back from it. */
  lemma FindNumberShow(prefix: string, n: nat, rest: string)
    requires forall k :: 0 <= k < |prefix| ==> !IsDigit(prefix[k])
    requires rest == [] || !IsDigit(rest[0])
    ensures FindNumber(prefix + Show(n) + rest) == n
  {
    var s := prefix + Show(n) + rest;
    var p := |prefix|;
    var e := p + |Show(n)|;
    forall k | 0 <= k < p ensures !IsDigit(s[k]) {
      assert s[k] == prefix[k];
    }
    FindNumberSkips(s, 0, p);
    forall k | p <= k < e ensures InClass(s[k], Digit) {
      assert s[k] == Show(n)[k - p];
    }
    if e < |s| {
      assert s[e] == rest[0];
    }
    SkipChars(s, p, Digit, e);
    assert s[p] == Show(n)[0];
    assert s[p..e] == Show(n);
    DecimalValueShow(n);
  }

  /** The counts on the launcher's summary lines and the grade they give: the third- and
      second-last lines hold the passed and failed counts, and fewer than three lines raise
      IndexError. */
  function JunitReport(output: string, guidance: string): (r: Result<Grade>)
    ensures r.Raised? <==> |SplitLines(output)| < 3
    ensures r.Raised? ==> r.error == IndexError
    ensures r.Ok? ==> 0.0 <= r.value.level <= 4.0
  {
    var lines := SplitLines(output);
    if |lines| < 3 then Raised(IndexError)
    else
      var passed := FindNumber(lines[|lines| - 3]);
      var failed := FindNumber(lines[|lines| - 2]);
      Ok(CountsGrade(passed, failed, output, guidance))
  }

  /** A launcher summary printed as lines grades by the two counts it shows. */
  lemma JunitSummaryLevel(head: seq<string>, pre1: string, passed: nat, post1: string,
                          pre2: string, failed: nat, post2: string, last: string, guidance: string)
    requires forall k :: 0 <= k < |head| ==> AllIn(head[k], NonLineBreak)
    requires AllIn(pre1 + Show(passed) + post1, NonLineBreak) && AllIn(pre2 + Show(failed) + post2, NonLineBreak)
    requires AllIn(last, NonLineBreak)
    requires forall k :: 0 <= k < |pre1| ==> !IsDigit(pre1[k])
    requires forall k :: 0 <= k < |pre2| ==> !IsDigit(pre2[k])
    requires (post1 == [] || !IsDigit(post1[0])) && (post2 == [] || !IsDigit(post2[0]))
    ensures var lines := head + [pre1 + Show(passed) + post1, pre2 + Show(failed) + post2, last];
            JunitReport(Unlines(lines), guidance) == Ok(CountsGrade(passed, failed, Unlines(lines), guidance))
  {
    var l1, l2 := pre1 + Show(passed) + post1, pre2 + Show(failed) + post2;
    var lines := head + [l1, l2, last];
    forall k | 0 <= k < |lines| ensures AllIn(lines[k], NonLineBreak) {
      if k < |head| {
        assert lines[k] == head[k];
      }
    }
    SplitLinesUnlines(lines);
    assert lines[|lines| - 3] == l1 && lines[|lines| - 2] == l2;
    FindNumberShow(pre1, passed, post1);
    FindNumberShow(pre2, failed, post2);
  }

  /** `grade_unit_test` from what the outside world supplies: whether the test file could be
      copied next to the code, and the three runs of `javac`, `javac` with the tests, and the
      launcher. */
  function GradeUnitTest(testFileFound: bool, compile: Run, junitCompile: Run, junitRun: Run): (r: Result<Grade>)
    ensures r.Raised? <==> !testFileFound || (CompileResult(compile).0 && JunitResult(junitCompile, junitRun).Raised?)
                           || (CompileResult(compile).0 && JunitResult(junitCompile, junitRun).Ok?
                               && JunitResult(junitCompile, junitRun).value.0
                               && |SplitLines(JunitResult(junitCompile, junitRun).value.1)| < 3)
    ensures testFileFound && !CompileResult(compile).0 ==> r == Ok(Grade(1.0, "\n\nError: " + Format(CompileResult(compile).1)))
    ensures testFileFound && CompileResult(compile).0 && junitCompile.Timeout? ==> r == Ok(Grade(1.0, JunitTimeout))
    ensures testFileFound && CompileResult(compile).0 && junitCompile.Exited? && junitCompile.returncode != 0
            ==> r == Ok(Grade(1.0, junitCompile.stderr))
    ensures testFileFound && CompileResult(compile).0 && junitCompile.Exited? && junitCompile.returncode == 0 && junitRun.Exited?
            ==> r == JunitReport(junitRun.stdout, NoTestsGuidance)
    ensures r.Ok? ==> 0.0 <= r.value.level <= 4.0
  {
    if !testFileFound then Raised(FileNotFoundError)
    else
      var (compiles, message) := CompileResult(compile);
      if !compiles then Ok(Grade(1.0, "\n\nError: " + Format(message)))
      else
        match JunitResult(junitCompile, junitRun)
        case Raised(e) => Raised(e)
        case Ok((succeeded, output)) =>
          if !succeeded then Ok(Grade(1.0, output))
          else JunitReport(output, NoTestsGuidance)
  }

  // ---------------------------------------------------------------- overall

  /** `grade_student`: the four checks in order, the weighted level and the bannered report. */
  method GradeStudent(fileContents: seq<string>, testFileFound: bool, compile: Run, junitCompile: Run, junitRun: Run)
    returns (r: Result<Grade>)
    ensures r == StudentResult(HeaderVerdict(fileContents), GradeIpoComments(fileContents),
                               ConventionGrade(DeclaredNames(fileContents), IsCamelCase),
                               GradeUnitTest(testFileFound, compile, junitCompile, junitRun))
    ensures r.Raised? <==> HeaderVerdict(fileContents).Raised? || GradeUnitTest(testFileFound, compile, junitCompile, junitRun).Raised?
    ensures r.Ok? ==> 0.0 <= r.value.level <= 4.0
  {
    var hc := GradeHeaderComments(fileContents);
    if hc.Raised? {
      return Raised(hc.error);
    }
    var ipo := GradeIpoComments(fileContents);
    var vn := GradeVarNames(fileContents);
    var ut := GradeUnitTest(testFileFound, compile, junitCompile, junitRun);
    if ut.Raised? {
      return Raised(ut.error);
    }
    r := Ok(StudentGrade(hc.value, ipo, vn, ut.value));
  }
}
