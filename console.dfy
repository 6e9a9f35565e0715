/** The console page: the language table, dispatch of a run to a strategy, the kind,
    colour and icon of each console entry, and the history that runs append to and
    `clearOutput` empties. A run is one atomic step; the artificial delay before the
    result is not modelled. */
module Console {
  import opened Results
  import Pattern
  import MockJs
  import MockC

  datatype Language = Language(id: string, name: string, supported: bool)

  /** The editor's languages, in the order of the page's table. */
  const Languages: seq<Language> := [
    Language("javascript", "JavaScript", true),
    Language("c", "C", true),
    Language("python", "Python", false),
    Language("cpp", "C++", false),
    Language("java", "Java", false)
  ]

  /** The first language of `table` with this id (`languages.find`). */
  function FindIn(table: seq<Language>, id: string): (r: Option<Language>)
    ensures r.Some? ==> r.value in table && r.value.id == id
    ensures r.None? ==> forall l :: l in table ==> l.id != id
    ensures r.Some? ==> exists k :: 0 <= k < |table| && table[k] == r.value
                                    && forall j :: 0 <= j < k ==> table[j].id != id
  {
    if table == [] then None
    else if table[0].id == id then Some(table[0])
    else FindIn(table[1..], id)
  }

  function FindLanguage(id: string): Option<Language> {
    FindIn(Languages, id)
  }

  /** `${currentLang?.name}`: the name, or the text "undefined" for an unknown id. */
  function NameText(lang: Option<Language>): string {
    match lang
    case Some(l) => l.name
    case None => "undefined"
  }

  /** The fixed message for a language without a strategy; it names the language twice. */
  function ComingSoon(name: string): string {
    "🚀 " + name + " support is coming soon!\n\n✨ Features in development:\n• Full "
    + name + " compilation and execution\n• Advanced debugging capabilities\n"
    + "• Library and framework support\n• Real-time error detection\n\n"
    + "💡 Try JavaScript or C for now - they're fully functional!"
  }

  /** The strategy `executeCode` picks by language id; `e` is what running `code` as
      JavaScript did, used only when the language is JavaScript. */
  function Dispatch(lang: string, code: string, e: MockJs.Evaluation): (r: ExecResult)
    ensures r.isError <==> lang == "javascript" && e.thrown.Some?
  {
    if lang == "javascript" then MockJs.JsResult(e)
    else if lang == "c" then MockC.CResult(code)
    else ExecResult(ComingSoon(NameText(FindLanguage(lang))), false)
  }

  datatype EntryKind = Command | Output | Error | Info

  /** Time-dependent parts of an entry (`Date.now()` id, `new Date()` timestamp),
      supplied by the caller. */
  datatype Stamp = Stamp(id: string, time: int)

  datatype Entry = Entry(stamp: Stamp, kind: EntryKind, content: string)

  const Welcome :=
    "🚀 MyWebConsole - Professional Code Editor\n✨ JavaScript & C ready for execution\n"
    + "💡 Select a language and start coding!"

  /** An error outranks everything; otherwise a supported language shows output and
      any other (or unknown) language shows information. */
  function OutputKind(r: ExecResult, lang: Option<Language>): EntryKind {
    if r.isError then Error
    else if lang.Some? && lang.value.supported then Output
    else Info
  }

  function CommandEntry(lang: string, stamp: Stamp): Entry {
    Entry(stamp, Command, "▶ Running " + NameText(FindLanguage(lang)) + " code...")
  }

  function OutputEntry(lang: string, r: ExecResult, stamp: Stamp): Entry {
    Entry(stamp, OutputKind(r, FindLanguage(lang)), r.output)
  }

  /** `!code.trim()`: the code is only white space and line terminators. */
  predicate IsBlank(code: string) {
    forall k :: 0 <= k < |code| ==> Pattern.IsSpace(code[k])
  }

  function EntryColor(kind: EntryKind): string {
    match kind
    case Command => "text-blue-400"
    case Error => "text-red-400"
    case Output => "text-green-400"
    case Info => "text-cyan-400"
  }

  function EntryIcon(kind: EntryKind): string {
    match kind
    case Command => "▶"
    case Error => "❌"
    case Output => "✓"
    case Info => "💡"
  }

  /** Each kind of entry is drawn with its own colour and its own icon. */
  lemma StylesTellKindsApart(k1: EntryKind, k2: EntryKind)
    requires k1 != k2
    ensures EntryColor(k1) != EntryColor(k2) && EntryIcon(k1) != EntryIcon(k2)
  {
  }

  /** The kind of the output entry follows from the language and the run alone: an error
      exactly for JavaScript that threw, output for C and for JavaScript that did not
      throw, information for every other language. */
  lemma KindOfRun(lang: string, code: string, e: MockJs.Evaluation, stamp: Stamp)
    ensures var k := OutputEntry(lang, Dispatch(lang, code, e), stamp).kind;
      && (k == Error <==> lang == "javascript" && e.thrown.Some?)
      && (k == Output <==> lang == "c" || (lang == "javascript" && e.thrown.None?))
      && (k == Info <==> lang != "javascript" && lang != "c")
  {
    var found := FindLanguage(lang);
    if lang == "javascript" {
      assert found == Some(Languages[0]);
    } else if lang == "c" {
      assert found == Some(Languages[1]);
    } else if found.Some? {
      assert found.value in Languages;
      assert !found.value.supported;
    }
  }

  /** An id missing from the table is named "undefined" in the command entry and twice in
      the coming-soon message, which is shown as information. */
  lemma UnknownLanguageNamedUndefined(lang: string, code: string, e: MockJs.Evaluation, s1: Stamp, s2: Stamp)
    requires FindLanguage(lang).None?
    ensures CommandEntry(lang, s1).content == "▶ Running undefined code..."
    ensures OutputEntry(lang, Dispatch(lang, code, e), s2)
         == Entry(s2, Info, ComingSoon("undefined"))
  {
    assert lang != "javascript" && lang != "c";
  }

  /** A language without a strategy never looks at the code or the evaluation, and its
      message is never an error. */
  lemma UnsupportedIgnoresCode(lang: string, code1: string, code2: string,
                               e1: MockJs.Evaluation, e2: MockJs.Evaluation)
    requires lang != "javascript" && lang != "c"
    ensures Dispatch(lang, code1, e1) == Dispatch(lang, code2, e2)
    ensures !Dispatch(lang, code1, e1).isError
  {
  }

  /** Every command entry is directly followed by the entry of its result. */
  ghost predicate Answered(h: seq<Entry>) {
    forall i :: 0 <= i < |h| && h[i].kind == Command ==> i + 1 < |h| && h[i + 1].kind != Command
  }

  /** Appending a command entry followed by a result entry keeps every command answered. */
  lemma AnsweredAppend(h: seq<Entry>, command: Entry, result: Entry)
    requires Answered(h) && command.kind == Command && result.kind != Command
    ensures Answered(h + [command, result])
  {
  }

  /** The page's console state: the ordered history and the busy flag. */
  class WebConsole {
    var history: seq<Entry>
    var isRunning: bool

    /** Between runs nothing is running and every command has its result. */
    ghost predicate Valid()
      reads this
    {
      !isRunning && Answered(history)
    }

    /** The page opens with its welcome message as the only entry. */
    constructor (start: Stamp)
      ensures Valid()
      ensures history == [Entry(start, Info, Welcome)]
    {
      history := [Entry(start, Info, Welcome)];
      isRunning := false;
    }

    /** `executeCode`: blank code does nothing; otherwise the command entry and then the
        result entry are appended, and nothing is left running. */
    method Run(lang: string, code: string, e: MockJs.Evaluation,
               commandStamp: Stamp, outputStamp: Stamp)
      requires Valid()
      modifies this
      ensures Valid()
      ensures IsBlank(code) ==> history == old(history)
      ensures !IsBlank(code) ==>
        history == old(history)
                   + [CommandEntry(lang, commandStamp), OutputEntry(lang, Dispatch(lang, code, e), outputStamp)]
    {
      if IsBlank(code) {
        return;
      }
      isRunning := true;
      var currentLang := FindLanguage(lang);
      var commandEntry := Entry(commandStamp, Command, "▶ Running " + NameText(currentLang) + " code...");
      history := history + [commandEntry];

      var output: string;
      var isError: bool;
      if lang == "javascript" {
        var result := MockJs.ExecuteJavaScript(e);
        output, isError := result.output, result.isError;
      } else if lang == "c" {
        var result := MockC.ExecuteC(code);
        output, isError := result.output, result.isError;
      } else {
        output := ComingSoon(NameText(currentLang));
        isError := false;
      }

      assert ExecResult(output, isError) == Dispatch(lang, code, e);
      var kind := if isError then Error
                  else if currentLang.Some? && currentLang.value.supported then Output
                  else Info;
      var outputEntry := Entry(outputStamp, kind, output);
      AnsweredAppend(old(history), commandEntry, outputEntry);
      assert old(history) + [commandEntry] + [outputEntry] == old(history) + [commandEntry, outputEntry];
      history := history + [outputEntry];
      isRunning := false;
    }

    /** `clearOutput`: the history becomes empty. */
    method Clear()
      requires Valid()
      modifies this
      ensures Valid()
      ensures history == [] && isRunning == old(isRunning)
    {
      history := [];
    }
  }
}
