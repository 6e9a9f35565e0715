/** Result shaping of the JavaScript strategy (`executeJavaScript`). Running the user's
    code through `new Function("console", code)` is not modelled: an `Evaluation` records
    what that run did to the injected console, in call order, and whether it threw. */
module MockJs {
  import opened Results
  import opened TextOps

  datatype Level = Log | Error | Warn | Info

  /** One argument of a console call, as the host would print it: whether
      `typeof arg === "object"`, its `String(arg)` text and its
      `JSON.stringify(arg, null, 2)` text. */
  datatype Arg = Arg(isObject: bool, text: string, json: string)

  datatype ConsoleCall = ConsoleCall(level: Level, args: seq<Arg>)

  /** The console calls the user's code made and, if it threw, the thrown message
      (`error.message` for an `Error`, `String(error)` otherwise). */
  datatype Evaluation = Evaluation(calls: seq<ConsoleCall>, thrown: Option<string>)

  const NoOutput := "✓ Code executed successfully (no output)"
  const RuntimeErrorPrefix := "❌ Runtime Error: "

  function Prefix(level: Level): string {
    match level
    case Log => ""
    case Error => "ERROR: "
    case Warn => "WARNING: "
    case Info => "INFO: "
  }

  /** Only `log` serialises objects; `error`, `warn` and `info` use `String(arg)`. */
  function ArgText(level: Level, a: Arg): string {
    if level == Log && a.isObject then a.json else a.text
  }

  function ArgTexts(call: ConsoleCall): (r: seq<string>)
    ensures |r| == |call.args|
  {
    seq(|call.args|, k requires 0 <= k < |call.args| => ArgText(call.level, call.args[k]))
  }

  /** The line one console call pushes onto `logs`. */
  function FormatCall(call: ConsoleCall): (r: string)
    ensures |Prefix(call.level)| <= |r| && r[..|Prefix(call.level)|] == Prefix(call.level)
  {
    Prefix(call.level) + Join(ArgTexts(call), " ")
  }

  function FormatCalls(calls: seq<ConsoleCall>): (r: seq<string>)
    ensures |r| == |calls|
  {
    seq(|calls|, k requires 0 <= k < |calls| => FormatCall(calls[k]))
  }

  /** What `executeJavaScript` returns for a run of the user's code. */
  function JsResult(e: Evaluation): (r: ExecResult)
    ensures r.isError <==> e.thrown.Some?
  {
    match e.thrown
    case Some(message) => ExecResult(RuntimeErrorPrefix + message, true)
    case None =>
      if |e.calls| > 0 then ExecResult(Join(FormatCalls(e.calls), "\n"), false)
      else ExecResult(NoOutput, false)
  }

  /** `executeJavaScript`: every console call pushes its line onto `logs`; a throw
      discards them and reports the message instead. */
  method ExecuteJavaScript(e: Evaluation) returns (r: ExecResult)
    ensures r == JsResult(e)
  {
    var logs: seq<string> := [];
    var i := 0;
    while i < |e.calls|
      invariant 0 <= i <= |e.calls|
      invariant logs == FormatCalls(e.calls[..i])
    {
      logs := logs + [FormatCall(e.calls[i])];
      i := i + 1;
    }
    assert e.calls[..|e.calls|] == e.calls;
    match e.thrown {
      case Some(message) =>
        r := ExecResult(RuntimeErrorPrefix + message, true);
      case None =>
        r := ExecResult(if |logs| > 0 then Join(logs, "\n") else NoOutput, false);
    }
  }

  /** A run that throws reports only the message, as an error, whatever it logged before. */
  lemma ThrowDiscardsLogs(e: Evaluation, other: seq<ConsoleCall>)
    requires e.thrown.Some?
    ensures JsResult(e) == JsResult(Evaluation(other, e.thrown))
    ensures JsResult(e).isError
    ensures JsResult(e).output == RuntimeErrorPrefix + e.thrown.value
  {
  }

  /** A run that logged nothing and did not throw shows the sentinel, not an error. */
  lemma SilentRunShowsSentinel(e: Evaluation)
    requires e.thrown.None? && e.calls == []
    ensures JsResult(e) == ExecResult(NoOutput, false)
  {
  }

  /** Read back line by line, the output of a run that did not throw is one line per
      console call, in call order, as long as no call printed a newline itself. */
  lemma LinesInCallOrder(e: Evaluation)
    requires e.thrown.None? && |e.calls| > 0
    requires forall k :: 0 <= k < |e.calls| ==> '\n' !in FormatCall(e.calls[k])
    ensures !JsResult(e).isError
    ensures SplitOn(JsResult(e).output, "\n") == FormatCalls(e.calls)
  {
    SplitJoin(FormatCalls(e.calls), '\n');
  }

  /** Runs that do not throw compose: the output of the calls of `c1` followed by those of
      `c2` is the output of `c1`, a newline, and the output of `c2`, whatever the lines hold. */
  lemma OutputOfConsecutiveCalls(c1: seq<ConsoleCall>, c2: seq<ConsoleCall>)
    requires |c1| > 0 && |c2| > 0
    ensures JsResult(Evaluation(c1 + c2, None)).output
         == JsResult(Evaluation(c1, None)).output + "\n" + JsResult(Evaluation(c2, None)).output
    ensures !JsResult(Evaluation(c1 + c2, None)).isError
  {
    assert FormatCalls(c1 + c2) == FormatCalls(c1) + FormatCalls(c2);
    JoinAppend(FormatCalls(c1), FormatCalls(c2), "\n");
  }

  /** A single call that does not throw prints exactly its own line. */
  lemma OneCallOneLine(call: ConsoleCall)
    ensures JsResult(Evaluation([call], None)) == ExecResult(FormatCall(call), false)
  {
  }

  /** A call with one argument prints its prefix and that argument's text: `log` prints an
      object's JSON text; a call with no argument prints only its prefix. */
  lemma SingleArgumentLine(level: Level, a: Arg)
    ensures FormatCall(ConsoleCall(level, [a])) == Prefix(level) + ArgText(level, a)
    ensures a.isObject ==> FormatCall(ConsoleCall(Log, [a])) == a.json
    ensures !a.isObject ==> FormatCall(ConsoleCall(level, [a])) == Prefix(level) + a.text
    ensures FormatCall(ConsoleCall(level, [])) == Prefix(level)
  {
  }

  /** Arguments compose: the line for the arguments `a` followed by `b` is the line for `a`,
      one space, and the texts of `b` joined by spaces, whatever the texts hold. */
  lemma ArgumentsJoinedBySpaces(level: Level, a: seq<Arg>, b: seq<Arg>)
    requires |a| > 0 && |b| > 0
    ensures FormatCall(ConsoleCall(level, a + b))
         == FormatCall(ConsoleCall(level, a)) + " " + Join(ArgTexts(ConsoleCall(level, b)), " ")
  {
    assert ArgTexts(ConsoleCall(level, a + b))
        == ArgTexts(ConsoleCall(level, a)) + ArgTexts(ConsoleCall(level, b));
    JoinAppend(ArgTexts(ConsoleCall(level, a)), ArgTexts(ConsoleCall(level, b)), " ");
  }

  /** A call's line is its level's prefix followed by its argument texts separated by
      single spaces: read back at the spaces, it gives the arguments one by one. */
  lemma CallLineParts(call: ConsoleCall)
    requires |call.args| > 0
    requires forall k :: 0 <= k < |call.args| ==> ' ' !in ArgText(call.level, call.args[k])
    ensures |Prefix(call.level)| <= |FormatCall(call)|
    ensures FormatCall(call)[..|Prefix(call.level)|] == Prefix(call.level)
    ensures SplitOn(FormatCall(call)[|Prefix(call.level)|..], " ") == ArgTexts(call)
  {
    var line := FormatCall(call);
    assert line[|Prefix(call.level)|..] == Join(ArgTexts(call), " ");
    SplitJoin(ArgTexts(call), ' ');
  }

  /** Arguments with every object flag cleared: what `String(arg)` alone would print. */
  function AsPrimitives(args: seq<Arg>): (r: seq<Arg>)
    ensures |r| == |args|
    ensures forall k :: 0 <= k < |args| ==> !r[k].isObject && r[k].text == args[k].text
  {
    seq(|args|, k requires 0 <= k < |args| => Arg(false, args[k].text, args[k].json))
  }

  /** `error`, `warn` and `info` never serialise: their line is their prefix before the
      line `log` would print for the same arguments taken as primitives. */
  lemma SeverityLinesUseStringForm(level: Level, args: seq<Arg>)
    requires level != Log
    ensures FormatCall(ConsoleCall(level, args))
         == Prefix(level) + FormatCall(ConsoleCall(Log, AsPrimitives(args)))
  {
    assert ArgTexts(ConsoleCall(level, args)) == ArgTexts(ConsoleCall(Log, AsPrimitives(args)));
  }
}
