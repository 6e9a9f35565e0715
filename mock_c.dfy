/** The mock C "compiler" of the console (`executeC`): nothing is compiled; the output
    is a fixed preamble followed by lines made from `printf` calls found in the text,
    or by two canned lines when there are none and the text mentions `main`. */
module MockC {
  import opened Results
  import opened TextOps
  import opened Pattern

  /** The scan pattern as page.tsx writes it,
        printf\s*$$\s*"([^"]*)"(?:\s*,\s*([^)]*))?\s*$$
      where each `$` is the end-of-input anchor. */
  const PrintfPattern: seq<Elem> := [
    One(Lit("printf")), One(Run(Space, false, 0)), One(EndOfInput), One(EndOfInput),
    One(Run(Space, false, 0)), One(Lit("\"")), One(Run(NoneOf('"'), false, 1)), One(Lit("\"")),
    Optional([Run(Space, false, 0), Lit(","), Run(Space, false, 0), Run(NoneOf(')'), false, 2)]),
    One(Run(Space, false, 0)), One(EndOfInput), One(EndOfInput)
  ]

  /** int\s+\w+\s*=\s*(\d+) — no word boundary before `int`. */
  const IntDeclPattern: seq<Elem> := [
    One(Lit("int")), One(Run(Space, true, 0)), One(Run(Word, true, 0)), One(Run(Space, false, 0)),
    One(Lit("=")), One(Run(Space, false, 0)), One(Run(Digit, true, 1))
  ]

  const Preamble: seq<string> :=
    ["🔨 Compiling C code...", "✓ Compilation successful", "🚀 Running executable...", ""]
  const Fallback: seq<string> := ["Program executed successfully", "Exit code: 0"]
  const DefaultInt := "42"

  predicate IsDigits(s: string) {
    |s| > 0 && forall k :: 0 <= k < |s| ==> IsDigit(s[k])
  }

  /** After `$` has held, no further character can be read: the printf pattern, which
      asks for `"` after its second anchor, matches nowhere. */
  lemma PrintfPatternNeverMatches(code: string, i: nat)
    requires i <= |code|
    ensures MatchAt(code, i, PrintfPattern).None?
  {
  }

  /** `code.match(/…/g)` for the printf pattern: `None` stands for JavaScript's `null`. */
  function Scan(code: string): (r: Option<seq<string>>)
    ensures r.Some? ==> |r.value| > 0
  {
    var found := MatchAll(code, PrintfPattern, 0);
    if found == [] then None else Some(found)
  }

  /** The scan of page.tsx finds no printf call in any text. */
  lemma ScanFindsNothing(code: string)
    ensures Scan(code) == None
  {
    forall j | 0 <= j <= |code|
      ensures MatchAt(code, j, PrintfPattern).None?
    {
      PrintfPatternNeverMatches(code, j);
    }
  }

  /** Walking the pattern: a match of `int\s+\w+\s*=\s*(\d+)` at `i` starts with
      `int` and captures exactly group 1, a non-empty run of digits. */
  lemma IntDeclMatch(code: string, i: nat)
    requires i <= |code|
    ensures MatchAt(code, i, IntDeclPattern).Some? ==>
      var g := MatchAt(code, i, IntDeclPattern).value.groups;
      OccursAt(code, "int", i) && 1 in g && g == map[1 := g[1]] && IsDigits(g[1])
  {
    var prefix := [Lit("int"), Run(Space, true, 0), Run(Word, true, 0), Run(Space, false, 0),
                   Lit("="), Run(Space, false, 0)];
    assert IntDeclPattern == Ones(prefix) + [One(Run(Digit, true, 1))];
    CapturedRunAfterAtoms(code, i, prefix, Digit, IntDeclPattern);
    if MatchAt(code, i, IntDeclPattern).Some? {
      LeadingLiteral(code, i, prefix);
    }
  }

  /** The digits of the `int` declaration matched at `i` (group 1), if the pattern matches there. */
  function DeclaredDigits(code: string, i: nat): (r: Option<string>)
    requires i <= |code|
    ensures r.Some? <==> MatchAt(code, i, IntDeclPattern).Some?
    ensures r.Some? ==> IsDigits(r.value) && OccursAt(code, "int", i)
    ensures r.Some? ==> MatchAt(code, i, IntDeclPattern).value.groups == map[1 := r.value]
  {
    IntDeclMatch(code, i);
    match MatchAt(code, i, IntDeclPattern)
    case None => None
    case Some(st) => Some(st.groups[1])
  }

  /** The value every `%d` becomes: the digits of the leftmost `int` declaration
      anywhere in the text, or 42 when there is none. */
  function IntSample(code: string): (r: string)
    ensures IsDigits(r)
    ensures (forall i :: 0 <= i <= |code| ==> DeclaredDigits(code, i).None?) ==> r == DefaultInt
  {
    match Search(code, IntDeclPattern, 0)
    case None => DefaultInt
    case Some(f) => DeclaredDigits(code, f.start).value
  }

  /** Where the leftmost declaration sits decides the sample, wherever the printf is. */
  lemma IntSampleIsFirstDeclaration(code: string, i: nat)
    requires i <= |code| && DeclaredDigits(code, i).Some?
    requires forall j :: 0 <= j < i ==> DeclaredDigits(code, j).None?
    ensures IntSample(code) == DeclaredDigits(code, i).value
  {
    var f := Search(code, IntDeclPattern, 0);
    assert MatchAt(code, i, IntDeclPattern).Some?;
    assert f.Some?;
    assert DeclaredDigits(code, f.value.start).Some?;
    assert f.value.start == i;
  }

  /** The placeholders other than `%d`, in the order page.tsx replaces them. */
  function OtherPlaceholders(s: string): string {
    var withStrings := ReplaceAll(s, "%s", "string_value");
    var withChars := ReplaceAll(withStrings, "%c", "A");
    var withFloats := ReplaceAll(withChars, "%f", "3.14");
    ReplaceAll(withFloats, "%lu", "8")
  }

  /** Sample values for all placeholders of a format string. */
  function Substitute(code: string, fmt: string): string {
    OtherPlaceholders(ReplaceAll(fmt, "%d", IntSample(code)))
  }

  /** The three escape sequences, in page.tsx's fixed order: `\n`, then `\t`, then `\\`. */
  function Unescape(s: string): string {
    ReplaceAll(ReplaceAll(ReplaceAll(s, "\\n", "\n"), "\\t", "\t"), "\\\\", "\\")
  }

  /** The output line for one printf call with format `fmt` and argument text `args`
      (`None` when the argument group did not take part). An empty argument text is
      falsy in JavaScript and substitutes nothing, as does a missing one. */
  function Render(code: string, fmt: string, args: Option<string>): string {
    var formatted := if args.Some? && args.value != "" then Substitute(code, fmt) else fmt;
    Unescape(formatted)
  }

  /** The body of the `forEach` for one call: `formatString` is rewritten in place,
      placeholder by placeholder when there is an argument fragment, then escape by escape. */
  method RenderFormat(code: string, fmt: string, args: Option<string>) returns (formatString: string)
    ensures formatString == Render(code, fmt, args)
  {
    formatString := fmt;
    if args.Some? && args.value != "" {
      formatString := ReplaceAll(formatString, "%d", IntSample(code));
      formatString := ReplaceAll(formatString, "%s", "string_value");
      formatString := ReplaceAll(formatString, "%c", "A");
      formatString := ReplaceAll(formatString, "%f", "3.14");
      formatString := ReplaceAll(formatString, "%lu", "8");
    }
    formatString := ReplaceAll(formatString, "\\n", "\n");
    formatString := ReplaceAll(formatString, "\\t", "\t");
    formatString := ReplaceAll(formatString, "\\\\", "\\");
  }

  /** A format string without `%` is not touched by substitution. */
  lemma SubstituteWithoutPercent(code: string, fmt: string)
    requires '%' !in fmt
    ensures Substitute(code, fmt) == fmt
  {
    AbsentFirstChar(fmt, "%d");
    ReplaceAllAbsent(fmt, "%d", IntSample(code));
    AbsentFirstChar(fmt, "%s");
    ReplaceAllAbsent(fmt, "%s", "string_value");
    AbsentFirstChar(fmt, "%c");
    ReplaceAllAbsent(fmt, "%c", "A");
    AbsentFirstChar(fmt, "%f");
    ReplaceAllAbsent(fmt, "%f", "3.14");
    AbsentFirstChar(fmt, "%lu");
    ReplaceAllAbsent(fmt, "%lu", "8");
  }

  /** A string without a backslash is not touched by un-escaping. */
  lemma UnescapeWithoutBackslash(s: string)
    requires '\\' !in s
    ensures Unescape(s) == s
  {
    AbsentFirstChar(s, "\\n");
    ReplaceAllAbsent(s, "\\n", "\n");
    AbsentFirstChar(s, "\\t");
    ReplaceAllAbsent(s, "\\t", "\t");
    AbsentFirstChar(s, "\\\\");
    ReplaceAllAbsent(s, "\\\\", "\\");
  }

  /** Without an argument fragment (or with an empty one, which is falsy) no placeholder is
      substituted: the line is the format with its escapes undone, it does not depend on
      the rest of the code, and a format without backslashes comes out exactly as written. */
  lemma RenderWithoutArgs(code: string, otherCode: string, fmt: string, args: Option<string>)
    requires args.None? || args == Some("")
    ensures Render(code, fmt, args) == Unescape(fmt)
    ensures Render(code, fmt, args) == Render(otherCode, fmt, args)
    ensures '\\' !in fmt ==> Render(code, fmt, args) == fmt
  {
    if '\\' !in fmt {
      UnescapeWithoutBackslash(fmt);
    }
  }

  /** The usual C format `"%d\n"` with no argument keeps its `%d` and only gains a newline. */
  lemma DecimalSurvivesWithoutArgs(code: string)
    ensures Render(code, "%d\\n", None) == "%d\n"
  {
    var fmt := "%d\\n";
    assert fmt[..2] != "\\n" && fmt[1..][..2] != "\\n" && fmt[2..][..2] == "\\n" && fmt[2..][2..] == "";
    assert fmt[1..][1..] == fmt[2..] && fmt[..1] == "%" && fmt[1..][..1] == "d";
    var once := ReplaceAll(fmt, "\\n", "\n");
    assert once == "%d\n";
    AbsentFirstChar(once, "\\t");
    ReplaceAllAbsent(once, "\\t", "\t");
    AbsentFirstChar(once, "\\\\");
    ReplaceAllAbsent(once, "\\\\", "\\");
  }

  /** With an argument fragment, every `%d` of the format becomes the same sample: the
      pieces between the `%d`s are joined with it before the other placeholders go. */
  lemma EveryDecimalGetsTheSample(code: string, fmt: string, args: string)
    requires args != ""
    ensures Render(code, fmt, Some(args))
         == Unescape(OtherPlaceholders(Join(SplitOn(fmt, "%d"), IntSample(code))))
  {
    ReplaceAllIsSplitJoin(fmt, "%d", IntSample(code));
  }

  /** One printf call as `match.match(/…/)` re-reads it from its matched text: the
      format (group 1) and the argument fragment (group 2, absent when the optional
      group did not take part). Group 1 is not optional, so a match always holds it. */
  datatype PrintfCall = PrintfCall(format: string, args: Option<string>)

  function CallOf(m: string): (r: Option<PrintfCall>)
    ensures r.Some? <==> exists j :: 0 <= j <= |m| && MatchAt(m, j, PrintfPattern).Some?
  {
    match Search(m, PrintfPattern, 0)
    case None => None
    case Some(f) =>
      var format := if 1 in f.groups then f.groups[1] else "";
      var args := if 2 in f.groups then Some(f.groups[2]) else None;
      Some(PrintfCall(format, args))
  }

  /** The lines the `forEach` over the matched texts `ms` pushes, in order. */
  function RenderedLines(code: string, ms: seq<string>): seq<string>
    decreases |ms|
  {
    if ms == [] then []
    else
      var before := RenderedLines(code, ms[..|ms| - 1]);
      match CallOf(ms[|ms| - 1])
      case None => before
      case Some(call) => before + [Render(code, call.format, call.args)]
  }

  /** The lines after the preamble: the rendered calls when the scan found some, else
      the two fallback lines when the text contains `main`, else nothing. */
  function CLines(code: string): seq<string> {
    match Scan(code)
    case Some(ms) => RenderedLines(code, ms)
    case None => if Contains(code, "main") then Fallback else []
  }

  /** What `executeC` returns for `code`. */
  function CResult(code: string): (r: ExecResult)
    ensures !r.isError
  {
    ExecResult(Join(Preamble + CLines(code), "\n"), false)
  }

  /** The `forEach` over the matched texts: one pushed line per text that re-matches. */
  method RenderAll(code: string, ms: seq<string>) returns (lines: seq<string>)
    ensures lines == RenderedLines(code, ms)
  {
    lines := [];
    var i := 0;
    while i < |ms|
      invariant 0 <= i <= |ms|
      invariant lines == RenderedLines(code, ms[..i])
    {
      assert ms[..i + 1][..i] == ms[..i];
      var formatMatch := CallOf(ms[i]);
      match formatMatch {
        case Some(call) =>
          var formatString := RenderFormat(code, call.format, call.args);
          lines := lines + [formatString];
        case None =>
      }
      i := i + 1;
    }
    assert ms[..|ms|] == ms;
  }

  /** `executeC`: push the preamble, one line per matched printf call, then the
      fallback lines when nothing matched and the code mentions `main`. */
  method ExecuteC(code: string) returns (r: ExecResult)
    ensures r == CResult(code)
  {
    var outputs := Preamble;
    var printfMatches := Scan(code);
    match printfMatches {
      case Some(ms) =>
        var lines := RenderAll(code, ms);
        outputs := outputs + lines;
      case None =>
        if Contains(code, "main") {
          outputs := outputs + Fallback;
        }
    }
    assert outputs == Preamble + CLines(code);
    r := ExecResult(Join(outputs, "\n"), false);
  }

  /** Whatever the code, the output opens with the preamble lines and is no error. */
  lemma CResultStartsWithPreamble(code: string)
    ensures !CResult(code).isError
    ensures |Join(Preamble, "\n")| <= |CResult(code).output|
    ensures CResult(code).output[..|Join(Preamble, "\n")|] == Join(Preamble, "\n")
  {
    var rest := CLines(code);
    if rest != [] {
      JoinAppend(Preamble, rest, "\n");
    } else {
      assert Preamble + rest == Preamble;
    }
  }

  /** As page.tsx writes the scan: the output is exactly the preamble, followed by the
      two fallback lines when the code contains `main`. */
  lemma CResultAsWritten(code: string)
    ensures CResult(code) == ExecResult(
      Join(Preamble + (if Contains(code, "main") then Fallback else []), "\n"), false)
  {
    ScanFindsNothing(code);
  }

  /** Read back line by line, the output is exactly those four or six lines. */
  lemma CResultLines(code: string)
    ensures !CResult(code).isError
    ensures SplitOn(CResult(code).output, "\n")
         == Preamble + (if Contains(code, "main") then Fallback else [])
  {
    CResultAsWritten(code);
    var lines := Preamble + (if Contains(code, "main") then Fallback else []);
    assert forall k :: 0 <= k < |lines| ==> '\n' !in lines[k];
    SplitJoin(lines, '\n');
  }

  /** The `int` search has no word boundary: in "print x = 3" it matches the `int`
      inside `print`, so every `%d` would become 3. */
  lemma IntSearchHasNoWordBoundary()
    ensures IntSample("print x = 3") == "3"
  {
    var code := "print x = 3";
    NoDeclarationBeforeInt();
    DeclarationInsidePrint();
    assert forall j :: 0 <= j < 2 ==> DeclaredDigits(code, j).None? by {
      assert DeclaredDigits(code, 0).None? && DeclaredDigits(code, 1).None?;
    }
    IntSampleIsFirstDeclaration(code, 2);
  }

  lemma NoDeclarationBeforeInt()
    ensures DeclaredDigits("print x = 3", 0).None? && DeclaredDigits("print x = 3", 1).None?
  {
    var code := "print x = 3";
    assert code[0..3][0] == 'p' && code[1..4][0] == 'r';
  }

  lemma DeclarationInsidePrint()
    ensures DeclaredDigits("print x = 3", 2) == Some("3")
  {
    var code := "print x = 3";
    assert code[2..5] == "int";
    assert MatchAtom(code, 2, Lit("int"), map[]) == Some(Step(5, map[]));
    assert RunEnd(code, 6, Space) == 6 && RunEnd(code, 5, Space) == 6;
    assert MatchAtom(code, 5, Run(Space, true, 0), map[]) == Some(Step(6, map[]));
    assert RunEnd(code, 7, Word) == 7 && RunEnd(code, 6, Word) == 7;
    assert MatchAtom(code, 6, Run(Word, true, 0), map[]) == Some(Step(7, map[]));
    assert RunEnd(code, 8, Space) == 8 && RunEnd(code, 7, Space) == 8;
    assert MatchAtom(code, 7, Run(Space, false, 0), map[]) == Some(Step(8, map[]));
    assert code[8..9] == "=";
    assert MatchAtom(code, 8, Lit("="), map[]) == Some(Step(9, map[]));
    assert RunEnd(code, 10, Space) == 10 && RunEnd(code, 9, Space) == 10;
    assert MatchAtom(code, 9, Run(Space, false, 0), map[]) == Some(Step(10, map[]));
    assert RunEnd(code, 11, Digit) == 11 && RunEnd(code, 10, Digit) == 11;
    assert code[10..11] == "3";
  }

  /** The escapes are undone one kind at a time, `\n` first: an escaped backslash
      followed by `n` turns into a backslash and a newline, not into `\n`. */
  lemma UnescapeOrder()
    ensures Unescape("\\\\n") == "\\\n"
  {
    var s := "\\\\n";
    assert s[..2] != "\\n" && s[1..] == "\\n" && s[1..][..2] == "\\n" && s[1..][2..] == "";
    var once := ReplaceAll(s, "\\n", "\n");
    assert once == "\\\n";
    assert once[..2] != "\\t" && once[1..] == "\n";
    assert ReplaceAll(once, "\\t", "\t") == once;
    assert once[..2] != "\\\\";
    assert ReplaceAll(once, "\\\\", "\\") == once;
  }
}
