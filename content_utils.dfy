/**
 * ContentUtils: classifying a passage into a ContentType, formatting it for
 * that type, the table heuristic, the paragraph packer and text cleaning.
 *
 * The regular expressions that the classifier only ever searches for
 * (Matcher.find and its match counts), and the Java, XML and JSON parsers,
 * are not given a meaning: their outcomes on a text come in as the fields
 * of a `Matchers` value. Everything else the classifier decides (the table
 * and "other code" line statistics, the JavaScript cues, the heading shapes)
 * is modelled exactly.
 */
module ContentUtils {
  import opened JavaStrings
  import opened Dto

  /** Outcome of JavaParser.parse: a ParseResult, or a ParseProblemException. */
  datatype JavaParse = Parsed(successful: bool, problems: nat) | ParseThrew

  /** What the searched-for patterns and the parsers report about a text. */
  datatype Matchers = Matchers(
    javaFound: string -> bool,          // JAVA_PATTERN.find
    javaParse: string -> JavaParse,
    pythonCount: string -> nat,         // number of PYTHON_PATTERN matches
    pythonIndented: string -> bool,     // "^\s{4}\S" (MULTILINE) found
    javaScriptCount: string -> nat,     // number of JAVASCRIPT_PATTERN matches
    cSharpFound: string -> bool,
    sqlFound: string -> bool,
    xmlFound: string -> bool,           // XML_PATTERN.find
    xmlParses: string -> bool,          // the DOM parser accepts the text
    tagCount: string -> nat,            // number of "</?[a-zA-Z][a-zA-Z0-9]*[^>]*>" matches
    jsonFound: string -> bool,          // JSON_PATTERN.find
    jsonObjectParses: string -> bool,   // new JSONObject(trimmed) succeeds
    jsonArrayParses: string -> bool,    // new JSONArray(trimmed) succeeds
    keyValueCount: string -> nat,       // number of quoted-key/value matches
    mathFound: string -> bool,          // MATH_FORMULA_PATTERN.find
    assignmentFound: string -> bool,    // "[a-z]\s*=\s*[a-z0-9]" (case-insensitive) found
    listItemCount: string -> nat)       // number of LIST_PATTERN matches

  // ---------------------------------------------------------------------
  // The table heuristic
  // ---------------------------------------------------------------------

  /** A trimmed line splits into more than two fields on 2+ spaces, a tab, '|' or ','. */
  predicate IsTableLine(trimmed: string) {
    |Split(trimmed, Runs(Space, 2))| > 2 || |Split(trimmed, Literal("\t"))| > 2
    || |Split(trimmed, Literal("|"))| > 2 || |Split(trimmed, Literal(","))| > 2
  }

  /** The number of lines whose trimmed text is non-empty and a table line. */
  function TableLineCount(lines: seq<string>): (n: nat)
    ensures n <= |lines|
  {
    if |lines| == 0 then 0
    else
      var t := Trim(Last(lines));
      TableLineCount(lines[..|lines| - 1]) + (if t != "" && IsTableLine(t) then 1 else 0)
  }

  /**
   * isLikelyTable: some line is a table line, and the table lines are more
   * than 30% of all the lines (blank lines included). The double comparison
   * `tableLineCount / lineCount > 0.3` is decided in integers: the double 0.3
   * lies just below 3/10, and no quotient of two ints lies between them.
   */
  predicate LikelyTable(text: string) {
    var lines := Split(text, Literal("\n"));
    var t := TableLineCount(lines);
    |lines| > 0 && t > 0 && 10 * t > 3 * |lines|
  }

  /** isLikelyTable, the loop over the lines. */
  method IsLikelyTable(text: string) returns (b: bool)
    ensures b == LikelyTable(text)
  {
    var lines := Split(text, Literal("\n"));
    var lineCount := 0;
    var tableLineCount := 0;
    for i := 0 to |lines|
      invariant lineCount == i
      invariant tableLineCount == TableLineCount(lines[..i])
    {
      assert lines[..i + 1][..i] == lines[..i];
      lineCount := lineCount + 1;
      var trimmed := Trim(lines[i]);
      if trimmed == "" {
        continue;
      }
      if IsTableLine(trimmed) {
        tableLineCount := tableLineCount + 1;
      }
    }
    assert lines[..|lines|] == lines;
    b := lineCount > 0 && tableLineCount > 0 && 10 * tableLineCount > 3 * lineCount;
  }

  /** A text all of whose lines are table lines is a table. */
  lemma {:induction false} AllTableLinesCount(lines: seq<string>)
    requires forall k :: 0 <= k < |lines| ==> Trim(lines[k]) != "" && IsTableLine(Trim(lines[k]))
    ensures TableLineCount(lines) == |lines|
  {
    if |lines| > 0 {
      AllTableLinesCount(lines[..|lines| - 1]);
    }
  }

  lemma AllTableLines(text: string)
    requires var lines := Split(text, Literal("\n"));
      |lines| > 0 && forall k :: 0 <= k < |lines| ==> Trim(lines[k]) != "" && IsTableLine(Trim(lines[k]))
    ensures LikelyTable(text)
  {
    AllTableLinesCount(Split(text, Literal("\n")));
  }

  /** A blank line counts towards the total but never as a table line. */
  lemma BlankLineDilutes(lines: seq<string>, blank: string)
    requires Trim(blank) == ""
    ensures TableLineCount(lines + [blank]) == TableLineCount(lines)
  {
    assert (lines + [blank])[..|lines|] == lines;
  }

  /** A text whose table lines are outnumbered enough by blank lines is not a table. */
  lemma {:induction false} BlankLinesDilute(lines: seq<string>, blanks: seq<string>)
    requires forall k :: 0 <= k < |blanks| ==> Trim(blanks[k]) == ""
    ensures TableLineCount(lines + blanks) == TableLineCount(lines)
    decreases |blanks|
  {
    if |blanks| > 0 {
      var init := blanks[..|blanks| - 1];
      var b := blanks[|blanks| - 1];
      assert blanks == init + [b];
      assert lines + blanks == (lines + init) + [b];
      BlankLinesDilute(lines, init);
      BlankLineDilutes(lines + init, b);
    } else {
      assert lines + blanks == lines;
    }
  }

  // ---------------------------------------------------------------------
  // The "other code" heuristic
  // ---------------------------------------------------------------------

  /** trimmed.matches(".*[{};]\\s*$") for a trimmed line: it ends in '{', '}' or ';'. */
  predicate EndsLikeStatement(trimmed: string) {
    |trimmed| > 0 && trimmed[|trimmed| - 1] in "{};" && NoLineTerminator(trimmed[..|trimmed| - 1])
  }

  /** trimmed.matches("^\\s*[)}].*$") for a trimmed line: it starts with ')' or '}'. */
  predicate StartsWithCloser(trimmed: string) {
    |trimmed| > 0 && trimmed[0] in ")}" && NoLineTerminator(trimmed[1..])
  }

  predicate IsCodeLine(trimmed: string) {
    StartsWith(trimmed, "if ") || StartsWith(trimmed, "for ") || StartsWith(trimmed, "while ")
    || Contains(trimmed, " = ") || Contains(trimmed, "==") || Contains(trimmed, "!=")
    || Contains(trimmed, "<=") || Contains(trimmed, ">=")
    || EndsLikeStatement(trimmed) || StartsWithCloser(trimmed)
  }

  function CodeLineCount(lines: seq<string>): (n: nat)
    ensures n <= |lines|
  {
    if |lines| == 0 then 0
    else
      var t := Trim(Last(lines));
      CodeLineCount(lines[..|lines| - 1]) + (if t != "" && IsCodeLine(t) then 1 else 0)
  }

  /** isOtherCode: more than five lines, and code-like lines are more than 30% of them. */
  predicate OtherCode(text: string) {
    var lines := Split(text, Literal("\n"));
    |lines| > 5 && 10 * CodeLineCount(lines) > 3 * |lines|
  }

  /** isOtherCode, the loop over the lines. */
  method IsOtherCode(text: string) returns (b: bool)
    ensures b == OtherCode(text)
  {
    var lines := Split(text, Literal("\n"));
    var codeLineCount := 0;
    var totalLines := 0;
    for i := 0 to |lines|
      invariant totalLines == i
      invariant codeLineCount == CodeLineCount(lines[..i])
    {
      assert lines[..i + 1][..i] == lines[..i];
      totalLines := totalLines + 1;
      var trimmed := Trim(lines[i]);
      if trimmed == "" {
        continue;
      }
      if IsCodeLine(trimmed) {
        codeLineCount := codeLineCount + 1;
      }
    }
    assert lines[..|lines|] == lines;
    b := totalLines > 5 && 10 * codeLineCount > 3 * totalLines;
  }

  /** Five or fewer lines are never "other code", however code-like. */
  lemma ShortTextIsNotOtherCode(text: string)
    requires |Split(text, Literal("\n"))| <= 5
    ensures !OtherCode(text)
  {
  }

  // ---------------------------------------------------------------------
  // The detectors
  // ---------------------------------------------------------------------

  /** isJavaCode: the pattern is found and the parser does not throw; a failed parse still counts. */
  predicate IsJavaCode(text: string, m: Matchers) {
    m.javaFound(text)
    && match m.javaParse(text)
       case ParseThrew => false
       case Parsed(ok, problems) => !ok || problems < 5
  }

  predicate IsPythonCode(text: string, m: Matchers) {
    var n := m.pythonCount(text);
    n >= 2 || (n >= 1 && m.pythonIndented(text))
  }

  predicate HasJavaScriptCues(text: string) {
    Contains(text, "document.") || Contains(text, "window.") || Contains(text, "$.")
    || Contains(text, "React.")
  }

  predicate IsJavaScriptCode(text: string, m: Matchers) {
    var n := m.javaScriptCount(text);
    n >= 2 || (n >= 1 && HasJavaScriptCues(text))
  }

  predicate IsCSharpCode(text: string, m: Matchers) { m.cSharpFound(text) }

  predicate IsSqlCode(text: string, m: Matchers) { m.sqlFound(text) }

  /**
   * isXmlContent: the pattern is found, the trimmed text looks like a
   * document, and either the parser accepts it or at least three tags occur.
   */
  predicate IsXmlContent(text: string, m: Matchers) {
    var t := Trim(text);
    m.xmlFound(text)
    && (StartsWith(t, "<?xml") || StartsWith(t, "<!DOCTYPE") || (StartsWith(t, "<") && EndsWith(t, ">")))
    && (m.xmlParses(text) || m.tagCount(text) >= 3)
  }

  /**
   * isJsonContent: the pattern is found, the trimmed text is bracketed as an
   * object or an array, and either it parses or two key/value pairs occur.
   */
  predicate IsJsonContent(text: string, m: Matchers) {
    var t := Trim(text);
    m.jsonFound(text)
    && ((StartsWith(t, "{") && EndsWith(t, "}")) || (StartsWith(t, "[") && EndsWith(t, "]")))
    && ((if StartsWith(t, "{") then m.jsonObjectParses(t) else m.jsonArrayParses(t))
        || m.keyValueCount(text) >= 2)
  }

  predicate IsMathFormula(text: string, m: Matchers) {
    m.mathFound(text) || (Contains(text, "=") && m.assignmentFound(text))
  }

  predicate IsList(text: string, m: Matchers) { m.listItemCount(text) >= 3 }

  /** text.matches("^[A-Z\\s]+$"). */
  predicate IsUpperOrSpaceLine(t: string) {
    |t| > 0 && forall k :: 0 <= k < |t| ==> IsUpper(t[k]) || IsRegexSpace(t[k])
  }

  /** text.matches("^\\d+\\.\\s.*"): digits, a dot, one \s, then no line terminator. */
  predicate IsNumberedLine(t: string) {
    var j := RunEnd(t, Digit, 0);
    j > 0 && j + 1 < |t| && t[j] == '.' && IsRegexSpace(t[j + 1]) && NoLineTerminator(t[j + 2..])
  }

  /** The heading test of detectContentType. */
  predicate HasHeadingShape(text: string) {
    (IsUpperOrSpaceLine(text) && |text| < 100)
    || (IsNumberedLine(text) && |text| < 150)
    || (|text| < 50 && ' ' !in text)
  }

  /** detectContentType: the first test that holds decides. */
  function DetectContentType(text: string, m: Matchers): (r: ContentType)
    ensures r != DiagramDescription && r != Image && r != Header && r != Footer
    ensures LikelyTable(text) ==> r == Table
    ensures r == Text ==> !HasHeadingShape(text)
  {
    if LikelyTable(text) then Table
    else if IsXmlContent(text, m) then CodeXml
    else if IsJsonContent(text, m) then CodeJson
    else if IsJavaCode(text, m) then CodeJava
    else if IsPythonCode(text, m) then CodePython
    else if IsJavaScriptCode(text, m) then CodeJavaScript
    else if IsCSharpCode(text, m) then CodeCSharp
    else if IsSqlCode(text, m) then CodeSql
    else if OtherCode(text) then CodeOther
    else if IsMathFormula(text, m) then MathFormula
    else if IsList(text, m) then List
    else if HasHeadingShape(text) then Heading
    else Text
  }

  /** A classification rule: when `holds`, the text is of type `category`. */
  datatype Rule = Rule(holds: bool, category: ContentType)

  /** The tests of the classifier in priority order (the documented decision order). */
  function Rules(text: string, m: Matchers): (rs: seq<Rule>)
    ensures |rs| == 12
  {
    [ Rule(LikelyTable(text), Table),
      Rule(IsXmlContent(text, m), CodeXml),
      Rule(IsJsonContent(text, m), CodeJson),
      Rule(IsJavaCode(text, m), CodeJava),
      Rule(IsPythonCode(text, m), CodePython),
      Rule(IsJavaScriptCode(text, m), CodeJavaScript),
      Rule(IsCSharpCode(text, m), CodeCSharp),
      Rule(IsSqlCode(text, m), CodeSql),
      Rule(OtherCode(text), CodeOther),
      Rule(IsMathFormula(text, m), MathFormula),
      Rule(IsList(text, m), List),
      Rule(HasHeadingShape(text), Heading) ]
  }

  /** The category of the first rule that holds, or the default. */
  function FirstMatch(rules: seq<Rule>, default: ContentType): (r: ContentType)
    ensures (exists i :: 0 <= i < |rules| && rules[i].holds) || r == default
  {
    if |rules| == 0 then default
    else if rules[0].holds then rules[0].category
    else FirstMatch(rules[1..], default)
  }

  /** FirstMatch picks a rule that holds such that no earlier rule holds. */
  lemma {:induction false} FirstMatchIsFirst(rules: seq<Rule>, default: ContentType)
    ensures (FirstMatch(rules, default) == default && forall i :: 0 <= i < |rules| ==> !rules[i].holds)
         || exists i :: 0 <= i < |rules| && rules[i].holds && rules[i].category == FirstMatch(rules, default)
                         && forall j :: 0 <= j < i ==> !rules[j].holds
  {
    if |rules| > 0 && !rules[0].holds {
      FirstMatchIsFirst(rules[1..], default);
      if exists i :: 0 <= i < |rules[1..]| && rules[1..][i].holds
                     && rules[1..][i].category == FirstMatch(rules[1..], default)
                     && forall j :: 0 <= j < i ==> !rules[1..][j].holds {
        var i :| 0 <= i < |rules[1..]| && rules[1..][i].holds
                 && rules[1..][i].category == FirstMatch(rules[1..], default)
                 && forall j :: 0 <= j < i ==> !rules[1..][j].holds;
        assert rules[i + 1] == rules[1..][i];
        assert forall j :: 0 <= j < i + 1 ==> !rules[j].holds by {
          forall j | 0 <= j < i + 1 ensures !rules[j].holds {
            if j > 0 { assert rules[j] == rules[1..][j - 1]; }
          }
        }
      } else {
        forall i | 0 <= i < |rules| ensures !rules[i].holds {
          if i > 0 { assert rules[i] == rules[1..][i - 1]; }
        }
      }
    }
  }

  /** Unfolding FirstMatch from position k onwards. */
  lemma {:induction false} FirstMatchSuffix(rules: seq<Rule>, default: ContentType, k: nat)
    requires k <= |rules|
    ensures FirstMatch(rules[k..], default)
         == if k == |rules| then default
            else if rules[k].holds then rules[k].category
            else FirstMatch(rules[k + 1..], default)
  {
    if k < |rules| {
      assert rules[k..][1..] == rules[k + 1..];
    }
  }

  /** detectContentType is the first-match reading of the rule list, TEXT by default. */
  lemma DetectIsFirstMatch(text: string, m: Matchers)
    ensures DetectContentType(text, m) == FirstMatch(Rules(text, m), Text)
  {
    FirstMatchOfTwelve(Rules(text, m), Text);
  }

  /** FirstMatch on twelve rules, written out as a chain of tests. */
  lemma FirstMatchOfTwelve(rs: seq<Rule>, default: ContentType)
    requires |rs| == 12
    ensures FirstMatch(rs, default) ==
      if rs[0].holds then rs[0].category else if rs[1].holds then rs[1].category
      else if rs[2].holds then rs[2].category else if rs[3].holds then rs[3].category
      else if rs[4].holds then rs[4].category else if rs[5].holds then rs[5].category
      else if rs[6].holds then rs[6].category else if rs[7].holds then rs[7].category
      else if rs[8].holds then rs[8].category else if rs[9].holds then rs[9].category
      else if rs[10].holds then rs[10].category else if rs[11].holds then rs[11].category
      else default
  {
    assert rs[0..] == rs;
    FirstMatchSuffix(rs, default, 0);
    FirstMatchSuffix(rs, default, 1);
    FirstMatchSuffix(rs, default, 2);
    FirstMatchSuffix(rs, default, 3);
    FirstMatchSuffix(rs, default, 4);
    FirstMatchSuffix(rs, default, 5);
    FirstMatchSuffix(rs, default, 6);
    FirstMatchSuffix(rs, default, 7);
    FirstMatchSuffix(rs, default, 8);
    FirstMatchSuffix(rs, default, 9);
    FirstMatchSuffix(rs, default, 10);
    FirstMatchSuffix(rs, default, 11);
    FirstMatchSuffix(rs, default, 12);
  }

  /** Every detected type other than TEXT is justified by its own test, ahead of all later ones. */
  lemma DetectedTypeHasReason(text: string, m: Matchers)
    ensures var r := DetectContentType(text, m);
      (r == Text && forall i :: 0 <= i < 12 ==> !Rules(text, m)[i].holds)
      || exists i :: 0 <= i < 12 && Rules(text, m)[i].holds && Rules(text, m)[i].category == r
                     && forall j :: 0 <= j < i ==> !Rules(text, m)[j].holds
  {
    DetectIsFirstMatch(text, m);
    FirstMatchIsFirst(Rules(text, m), Text);
  }

  /** A parse that reports failure still makes the text Java code (the parser did not throw). */
  lemma FailedParseIsJava(text: string, m: Matchers)
    requires m.javaFound(text) && m.javaParse(text).Parsed? && !m.javaParse(text).successful
    ensures IsJavaCode(text, m)
  {
  }

  // ---------------------------------------------------------------------
  // Formatting
  // ---------------------------------------------------------------------

  predicate IsCodeType(t: ContentType) {
    t == CodeJava || t == CodePython || t == CodeJavaScript || t == CodeCSharp
    || t == CodeSql || t == CodeXml || t == CodeJson || t == CodeOther
  }

  /** The info string of the fence formatCodeBlock opens. */
  function LanguageTag(t: ContentType): string {
    match t
    case CodeJava => "java"
    case CodePython => "python"
    case CodeJavaScript => "javascript"
    case CodeCSharp => "csharp"
    case CodeSql => "sql"
    case CodeXml => "xml"
    case CodeJson => "json"
    case _ => ""
  }

  /** formatCodeBlock: runs of 3+ newlines shortened to two, then fenced. */
  function FormatCodeBlock(code: string, t: ContentType): (r: string)
    ensures StartsWith(r, "```" + LanguageTag(t) + "\n") && EndsWith(r, "\n```")
    ensures |r| == |LanguageTag(t)| + |CollapseNewlines(code)| + 8
  {
    "```" + LanguageTag(t) + "\n" + CollapseNewlines(code) + "\n```"
  }

  /** The code between the fences of a formatted block. */
  function Unfence(block: string, tag: string): string
    requires |block| >= |tag| + 8
  {
    block[|tag| + 4..|block| - 4]
  }

  /** Unfencing a formatted block gives back the code, when the code had no triple newline. */
  lemma FenceRoundTrip(code: string, t: ContentType)
    requires NoTripleNewline(code)
    ensures Unfence(FormatCodeBlock(code, t), LanguageTag(t)) == code
  {
    CollapseNewlinesIdentity(code);
    var tag := LanguageTag(t);
    var r := FormatCodeBlock(code, t);
    assert r == ("```" + tag + "\n") + code + "\n```";
  }

  /** Whatever the code, the fenced body has no run of three newlines. */
  lemma FencedBodyNoTriple(code: string, t: ContentType)
    ensures NoTripleNewline(Unfence(FormatCodeBlock(code, t), LanguageTag(t)))
    ensures Unfence(FormatCodeBlock(code, t), LanguageTag(t)) == CollapseNewlines(code)
  {
    var tag := LanguageTag(t);
    assert FormatCodeBlock(code, t) == ("```" + tag + "\n") + CollapseNewlines(code) + "\n```";
  }

  /** formatMathFormula: TeX display text is kept, any other formula is labelled. */
  function FormatMathFormula(formula: string): (r: string)
    ensures Contains(formula, "$$") || Contains(formula, "\\begin{") ==> r == formula
    ensures !(Contains(formula, "$$") || Contains(formula, "\\begin{")) ==>
              StartsWith(r, "Math Formula:\n") && r[14..] == Trim(formula)
  {
    if Contains(formula, "$$") || Contains(formula, "\\begin{") then formula
    else "Math Formula:\n" + Trim(formula)
  }

  /** formatList. */
  function FormatList(list: string): (r: string)
    ensures NoTripleNewline(r)
    ensures r == [] || (!IsTrimmable(r[0]) && !IsTrimmable(r[|r| - 1]))
  {
    var c := CollapseNewlines(list);
    TrimNoTriple(c);
    Trim(c)
  }

  /** Formatting a list twice is formatting it once. */
  lemma FormatListIdempotent(list: string)
    ensures FormatList(FormatList(list)) == FormatList(list)
  {
    var r := FormatList(list);
    CollapseNewlinesIdentity(r);
    TrimIdempotent(CollapseNewlines(list));
  }

  /** formatContentByType. */
  function FormatContentByType(content: string, t: ContentType): (r: string)
    ensures IsCodeType(t) ==> StartsWith(r, "```") && EndsWith(r, "\n```")
    ensures t == List ==> NoTripleNewline(r)
    ensures !IsCodeType(t) && t != MathFormula && t != List ==> r == content
  {
    if IsCodeType(t) then FormatCodeBlock(content, t)
    else if t == MathFormula then FormatMathFormula(content)
    else if t == List then FormatList(content)
    else content
  }

  // ---------------------------------------------------------------------
  // Markdown tables
  // ---------------------------------------------------------------------

  /** The cells of one row, each as " " + trimmed text + " |". */
  function Cells(row: seq<string>): string
  {
    if |row| == 0 then "" else Cells(row[..|row| - 1]) + " " + Trim(Last(row)) + " |"
  }

  function MarkdownRow(row: seq<string>): string { "|" + Cells(row) + "\n" }

  function SeparatorCells(n: nat): string
  {
    if n == 0 then "" else SeparatorCells(n - 1) + " --- |"
  }

  function SeparatorRow(n: nat): string { "|" + SeparatorCells(n) + "\n" }

  /** One markdown line per row. */
  function RowLines(rs: seq<seq<string>>): (lines: seq<string>)
    ensures |lines| == |rs|
    ensures forall i :: 0 <= i < |rs| ==> lines[i] == MarkdownRow(rs[i])
  {
    if rs == [] then [] else RowLines(rs[..|rs| - 1]) + [MarkdownRow(Last(rs))]
  }

  /** The lines convertToMarkdownTable writes: header, separator, then the other rows. */
  function MarkdownLines(rows: seq<seq<string>>): (lines: seq<string>)
    ensures rows == [] ==> lines == []
    ensures rows != [] ==> |lines| == |rows| + 1 && lines[0] == MarkdownRow(rows[0])
                           && lines[1] == SeparatorRow(|rows[0]|)
    ensures forall i :: 2 <= i < |lines| ==> lines[i] == MarkdownRow(rows[i - 1])
  {
    if rows == [] then [] else [MarkdownRow(rows[0]), SeparatorRow(|rows[0]|)] + RowLines(rows[1..])
  }

  /** Every line of the table starts with '|' and ends with a newline; there is one per row plus the separator. */
  lemma MarkdownLinesShape(rows: seq<seq<string>>)
    requires rows != []
    ensures |MarkdownLines(rows)| == |rows| + 1
    ensures forall i :: 0 <= i < |MarkdownLines(rows)| ==>
              StartsWith(MarkdownLines(rows)[i], "|") && EndsWith(MarkdownLines(rows)[i], "\n")
  {
  }

  lemma ConcatPair(a: string, b: string)
    ensures Concat([a, b]) == a + b
  {
    assert [a, b][..1] == [a];
    assert [a][..0] == [];
    assert Concat([a]) == Concat([]) + a;
  }

  lemma ConcatSnoc(xs: seq<string>, i: nat)
    requires i < |xs|
    ensures Concat(xs[..i + 1]) == Concat(xs[..i]) + xs[i]
  {
    assert xs[..i + 1][..i] == xs[..i];
  }

  /** The loop over the cells of one row: appends " " + trimmed text + " |" for each. */
  method AppendCells(md: string, row: seq<string>) returns (r: string)
    ensures r == md + Cells(row)
  {
    r := md;
    for c := 0 to |row|
      invariant r == md + Cells(row[..c])
    {
      assert row[..c + 1][..c] == row[..c];
      r := r + " " + Trim(row[c]) + " |";
    }
    assert row[..|row|] == row;
  }

  /** Writes the separator line: '|', one " --- |" per header cell, a newline. */
  method AppendSeparator(md: string, n: nat) returns (r: string)
    ensures r == md + SeparatorRow(n)
  {
    r := md + "|";
    for c := 0 to n
      invariant r == md + "|" + SeparatorCells(c)
    {
      r := r + " --- |";
    }
    r := r + "\n";
  }

  /** The body rows of a table, one markdown line each. */
  function BodyRows(rs: seq<seq<string>>): string
  {
    if rs == [] then "" else BodyRows(rs[..|rs| - 1]) + MarkdownRow(Last(rs))
  }

  /** The text convertToMarkdownTable returns. */
  function MarkdownText(rows: seq<seq<string>>): string
  {
    if rows == [] then "" else MarkdownRow(rows[0]) + SeparatorRow(|rows[0]|) + BodyRows(rows[1..])
  }

  lemma {:induction false} BodyRowsAreLines(rs: seq<seq<string>>)
    ensures Concat(RowLines(rs)) == BodyRows(rs)
  {
    if rs != [] {
      var init := rs[..|rs| - 1];
      BodyRowsAreLines(init);
      ConcatSnoc(RowLines(rs), |rs| - 1);
      assert RowLines(rs)[..|rs| - 1] == RowLines(init);
    }
  }

  /** The text is the table's lines, in order: header, separator, then each remaining row. */
  lemma MarkdownTextIsLines(rows: seq<seq<string>>)
    ensures MarkdownText(rows) == Concat(MarkdownLines(rows))
  {
    if rows != [] {
      var h := [MarkdownRow(rows[0]), SeparatorRow(|rows[0]|)];
      ConcatAppend(h, RowLines(rows[1..]));
      ConcatPair(h[0], h[1]);
      BodyRowsAreLines(rows[1..]);
    }
  }

  /** convertToMarkdownTable over the rows of cell texts of an extracted table. */
  method ConvertToMarkdownTable(rows: seq<seq<string>>) returns (md: string)
    ensures md == MarkdownText(rows)
  {
    if |rows| == 0 {
      return "";
    }
    md := AppendRow("", rows[0]);
    assert md == MarkdownRow(rows[0]) by { EmptyAppend(MarkdownRow(rows[0])); }
    md := AppendSeparator(md, |rows[0]|);
    md := AppendBodyRows(md, rows);
  }

  /** The loop over the rows after the header: one row line each. */
  method AppendBodyRows(md: string, rows: seq<seq<string>>) returns (r: string)
    requires |rows| > 0
    ensures r == md + BodyRows(rows[1..])
  {
    r := md;
    assert rows[1..1] == [];
    for i := 1 to |rows|
      invariant r == md + BodyRows(rows[1..i])
    {
      r := AppendRow(r, rows[i]);
      BodyRowsSnoc(rows, i);
      AppendAssoc(md, BodyRows(rows[1..i]), MarkdownRow(rows[i]));
    }
    assert rows[1..|rows|] == rows[1..];
  }

  lemma BodyRowsSnoc(rows: seq<seq<string>>, i: nat)
    requires 1 <= i < |rows|
    ensures BodyRows(rows[1..i + 1]) == BodyRows(rows[1..i]) + MarkdownRow(rows[i])
  {
    assert rows[1..i + 1][..i - 1] == rows[1..i];
  }

  /** Writes one row line: '|', its cells, a newline. */
  method AppendRow(md: string, row: seq<string>) returns (r: string)
    ensures r == md + MarkdownRow(row)
  {
    r := AppendCells(md + "|", row);
    r := r + "\n";
  }

  // ---------------------------------------------------------------------
  // Packing paragraphs into chunks of a target size
  // ---------------------------------------------------------------------

  /** The packer's state: the chunks emitted so far and the text being built. */
  datatype Packing = Packing(chunks: seq<string>, buffer: string)

  /** The text carried into the next chunk after a flush: the last `overlap` characters, if longer. */
  function Carry(buffer: string, overlap: int): (r: string)
    ensures overlap > 0 && |buffer| > overlap ==> r == buffer[|buffer| - overlap..] && |r| == overlap
    ensures !(overlap > 0 && |buffer| > overlap) ==> r == ""
  {
    if overlap > 0 && |buffer| > overlap then buffer[|buffer| - overlap..] else ""
  }

  /** The buffer after appending a paragraph: separated by a blank line unless empty. */
  function Append(buffer: string, p: string): string
  {
    if |buffer| > 0 then buffer + "\n\n" + p else p
  }

  /** One paragraph of createSemanticallyCoherentChunks. */
  function PackStep(st: Packing, p: string, targetSize: int, overlap: int): (r: Packing)
    // a buffer that cannot take the paragraph is emitted first, and its tail carried over
    ensures |st.buffer| > 0 && |st.buffer| + |p| > targetSize ==>
              (|p| >= targetSize ==> r.chunks == st.chunks + [st.buffer, Append(Carry(st.buffer, overlap), p)])
              && (|p| < targetSize ==> r.chunks == st.chunks + [st.buffer]
                                       && r.buffer == Append(Carry(st.buffer, overlap), p))
    // otherwise the paragraph joins the buffer
    ensures !(|st.buffer| > 0 && |st.buffer| + |p| > targetSize) ==>
              (|p| >= targetSize ==> r.chunks == st.chunks + [Append(st.buffer, p)])
              && (|p| < targetSize ==> r.chunks == st.chunks && r.buffer == Append(st.buffer, p))
    // a paragraph at least as long as the target closes the chunk it is in
    ensures |p| >= targetSize ==> r.buffer == ""
  {
    var flushed := |st.buffer| > 0 && |st.buffer| + |p| > targetSize;
    var chunks := if flushed then st.chunks + [st.buffer] else st.chunks;
    var buffer := if flushed then Carry(st.buffer, overlap) else st.buffer;
    if |p| >= targetSize then Packing(chunks + [Append(buffer, p)], "")
    else Packing(chunks, Append(buffer, p))
  }

  function PackAll(ps: seq<string>, targetSize: int, overlap: int): Packing
  {
    if |ps| == 0 then Packing([], "")
    else PackStep(PackAll(ps[..|ps| - 1], targetSize, overlap), Last(ps), targetSize, overlap)
  }

  /** The chunks the packer returns: those emitted, then a non-empty remaining buffer. */
  function Emitted(st: Packing): seq<string>
  {
    st.chunks + (if |st.buffer| > 0 then [st.buffer] else [])
  }

  /** createSemanticallyCoherentChunks. */
  method CreateSemanticallyCoherentChunks(paragraphs: seq<string>, targetSize: int, overlap: int)
    returns (chunks: seq<string>)
    ensures chunks == Emitted(PackAll(paragraphs, targetSize, overlap))
  {
    chunks := [];
    var currentChunk := "";
    var currentSize := 0;
    for i := 0 to |paragraphs|
      invariant Packing(chunks, currentChunk) == PackAll(paragraphs[..i], targetSize, overlap)
      invariant currentSize == |currentChunk|
    {
      assert paragraphs[..i + 1][..i] == paragraphs[..i];
      var paragraph := paragraphs[i];
      ghost var st := PackAll(paragraphs[..i], targetSize, overlap);
      assert PackAll(paragraphs[..i + 1], targetSize, overlap) == PackStep(st, paragraph, targetSize, overlap);
      if currentSize > 0 && currentSize + |paragraph| > targetSize {
        chunks := chunks + [currentChunk];
        if overlap > 0 && |currentChunk| > overlap {
          var overlapText := currentChunk[|currentChunk| - overlap..];
          currentChunk := overlapText;
          currentSize := |overlapText|;
        } else {
          currentChunk := "";
          currentSize := 0;
        }
      }
      ghost var carried := currentChunk;
      if currentSize > 0 {
        currentChunk := currentChunk + "\n\n";
        currentSize := currentSize + 2;
      }
      currentChunk := currentChunk + paragraph;
      currentSize := currentSize + |paragraph|;
      assert currentChunk == Append(carried, paragraph);
      if |paragraph| >= targetSize {
        chunks := chunks + [currentChunk];
        currentChunk := "";
        currentSize := 0;
      }
      assert Packing(chunks, currentChunk) == PackStep(st, paragraph, targetSize, overlap);
    }
    assert paragraphs[..|paragraphs|] == paragraphs;
    if currentSize > 0 {
      chunks := chunks + [currentChunk];
    }
  }

  lemma JoinExtendLast(a: seq<string>, b: string, p: string, sep: string)
    ensures Join(a + [b + sep + p], sep) == Join(a + [b], sep) + sep + p
  {
    if |a| > 0 {
      JoinAppend(a, b + sep + p, sep);
      JoinAppend(a, b, sep);
    }
  }

  /**
   * Without overlap, packing loses, adds and reorders nothing: joining the
   * chunks with blank lines gives the paragraphs joined with blank lines.
   */
  lemma {:induction false} PackingKeepsText(ps: seq<string>, targetSize: int, overlap: int)
    requires overlap <= 0
    requires forall k :: 0 <= k < |ps| ==> ps[k] != ""
    ensures Join(Emitted(PackAll(ps, targetSize, overlap)), "\n\n") == Join(ps, "\n\n")
    ensures |Emitted(PackAll(ps, targetSize, overlap))| > 0 <==> |ps| > 0
  {
    if |ps| > 0 {
      var init := ps[..|ps| - 1];
      var p := Last(ps);
      assert ps == init + [p];
      PackingKeepsText(init, targetSize, overlap);
      var st := PackAll(init, targetSize, overlap);
      var flushed := |st.buffer| > 0 && |st.buffer| + |p| > targetSize;
      // emitting the buffer early changes nothing in the emitted sequence
      var mid := if flushed then Packing(st.chunks + [st.buffer], "") else st;
      assert Emitted(mid) == Emitted(st);
      var buffer' := Append(mid.buffer, p);
      assert PackAll(ps, targetSize, overlap) == PackStep(st, p, targetSize, overlap);
      assert Emitted(PackAll(ps, targetSize, overlap)) == mid.chunks + [buffer'];
      if |mid.buffer| > 0 {
        JoinExtendLast(mid.chunks, mid.buffer, p, "\n\n");
        assert Emitted(mid) == mid.chunks + [mid.buffer];
        JoinAppend(init, p, "\n\n");
      } else if |init| > 0 {
        assert Emitted(mid) == mid.chunks;
        JoinAppend(mid.chunks, p, "\n\n");
        JoinAppend(init, p, "\n\n");
      } else {
        assert mid.chunks == [];
        assert ps == [p];
      }
    }
  }

  // ---------------------------------------------------------------------
  // cleanText
  // ---------------------------------------------------------------------

  /** cleanText: whitespace runs to one space, controls and U+FFFD removed, trimmed. */
  function CleanText(text: string): (r: string)
    ensures SpaceNormal(r)
    ensures forall k :: 0 <= k < |r| ==> !IsControl(r[k]) && r[k] != '\U{FFFD}'
    ensures r == [] || (r[0] != ' ' && r[|r| - 1] != ' ')
  {
    var a := CollapseSpaces(text);
    var b := RemoveControls(a);
    var c := RemoveChar(b, '\U{FFFD}');
    TrimKeepsClean(c);
    Trim(c)
  }
}
