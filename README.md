# MyWebConsole execution engine, in Dafny

MyWebConsole is a browser page with a code editor and a console. Pressing Run sends the
editor's text to a strategy chosen by the selected language:

- JavaScript is evaluated against an injected `console` object. Its calls are collected as
  lines.
- C goes through a mock "compiler". It prints a fixed preamble and then tries to find
  `printf` calls, fill their placeholders with sample values and undo escape sequences.
  When it finds no call and the text mentions `main`, it prints two canned lines instead.
- Every other language gets a fixed "coming soon" message.

The page keeps an ordered history of console entries. Each run appends a command entry and
a result entry, and Clear empties the history.

The model has six modules:

- `Results`: `Option` and the `{ output, isError }` result of a strategy.
- `TextOps`: the JavaScript string operations the page uses with literal patterns:
  `includes`, `replace(/lit/g, …)` and `join`.
  - `IndexOf` is the search behind `includes`.
  - `SplitOn` (`split`) is used only to read an output back into its lines. The page's
    own `split` at app/page.tsx:407 is never used.
  - Lemmas tie them together: replacing is splitting then joining, joining undoes
    splitting, and the converse holds for a one-character separator.
- `Pattern`: the fragment of JavaScript regular expressions that the C mock uses, with
  `search` and the `g`-flag `match`. This covers literal text, greedy `\s`, `\w`, `\d`
  and `[^c]` runs, capture, the `$` anchor and one optional group. Runs never give
  characters back. For the two patterns involved this agrees with backtracking, because
  each run is followed by something that cannot begin with a character of the run, or by
  elements that end at the same place however the text is split.
- `MockC`: `executeC`, with the scan, the per-call rendering (`Render` and the
  imperative `RenderFormat`), the `int` search, the fallback and the output.
- `MockJs`: the result shaping of `executeJavaScript`. What the user's code did is an
  input: the console calls in order, each argument with its `String(…)` and
  `JSON.stringify(…, null, 2)` texts, and an optional thrown message.
- `Console`: the language table, dispatch, entry kinds, colours and icons, and a
  `WebConsole` class holding the history and the busy flag.

The scan pattern of `executeC` is written `printf\s*$$\s*"([^"]*)"…\s*$$`. In a
JavaScript regular expression each `$` is an end-of-input anchor, and a `"` must follow
them, so the pattern matches nowhere.

- The model keeps the pattern as written and proves that it never matches
  (`MockC.PrintfPatternNeverMatches`).
- So, as the code stands, the C output is the preamble, plus the two fallback lines when
  the text contains `main` (`MockC.CResultAsWritten`).
- The page's own comment at app/page.tsx:416 ("Extract and simulate printf statements")
  says the scan is meant to find `printf(...)` calls. The code cannot do that, and the
  model follows the code.
- The rendering step still exists in the code, and it is modelled and proved on its own.

The `%d` value comes from the first `int\s+\w+\s*=\s*(\d+)` match in the whole text.
That search has no word boundary, so `print x = 3` yields `3`
(`MockC.IntSearchHasNoWordBoundary`).

## Model

| member | source | states |
|---|---|---|
| TextOps.IndexOf | app/page.tsx:451 | the result is the leftmost occurrence at or after the start, and there is no occurrence at all when the result is absent |
| TextOps.Contains | app/page.tsx:451 | `includes` is true exactly when the pattern occurs somewhere in the text |
| TextOps.ReplaceAllIsSplitJoin | app/page.tsx:429-437 | replacing every leftmost non-overlapping occurrence is the same as splitting at the occurrences and joining with the replacement |
| TextOps.ReplaceAllAbsent | app/page.tsx:434-443 | a text without the pattern is returned unchanged by a global replace |
| TextOps.JoinSplit | app/page.tsx:457 | joining the pieces of a split with the same separator gives back the text |
| TextOps.SplitJoin | app/page.tsx:394 | lines that do not contain a one-character separator, once joined with it, split back into exactly the same lines in order |
| TextOps.ReplaceAll | app/page.tsx:429-443 | `replace(/lit/g, rep)`, stated by `ReplaceAllIsSplitJoin` and `ReplaceAllAbsent` |
| TextOps.Join | app/page.tsx:394 | `join(sep)`, stated by `JoinSplit`, `SplitJoin` and `JoinAppend` |
| TextOps.JoinAppend | app/page.tsx:456-458 | joining two non-empty lists of lines is joining each and putting one separator between the two |
| Pattern.RunEnd | app/page.tsx:417 | a greedy run ends at the first character outside its class: every character before the end is in the class |
| Pattern.MatchElems | app/page.tsx:417 | a pattern matched from one position, trying the optional group before skipping it; a match never ends before it starts, and `ThroughAtoms`, `CapturedRunAfterAtoms` and `PrintfPatternNeverMatches` state what it finds |
| Pattern.Search | app/page.tsx:431 | `code.match(re)` without `g` gives the leftmost position where the pattern matches, with its end and groups; when there is none, no position matches |
| Pattern.MatchAll | app/page.tsx:417 | `code.match(re)` with `g` collects nothing exactly when the pattern matches at no position |
| Pattern.ThroughAtoms | app/page.tsx:431 | a pattern whose head is plain atoms matches as those atoms matched one after another, followed by the rest |
| Pattern.AtomsKeepGroups | app/page.tsx:431 | atoms that capture nothing leave the captured groups unchanged |
| Pattern.CapturedRunAfterAtoms | app/page.tsx:431-432 | after atoms that capture nothing, a captured `+` run stores exactly group 1, a non-empty run of the class |
| MockC.PrintfPatternNeverMatches | app/page.tsx:417 | the scan pattern as written (with `$$`) matches at no position of any text |
| MockC.Scan | app/page.tsx:417 | the `g` scan yields `null` or a non-empty list of matched texts |
| MockC.ScanFindsNothing | app/page.tsx:417-419 | the scan is `null` for every text, so the `forEach` never runs |
| MockC.IntDeclMatch | app/page.tsx:431 | a match of `int\s+\w+\s*=\s*(\d+)` starts with `int` and captures only group 1, which is all digits |
| MockC.DeclaredDigits | app/page.tsx:431-432 | the captured digits exist exactly when the declaration pattern matches at that position, and they are digits preceded by `int` |
| MockC.IntSample | app/page.tsx:429-433 | the `%d` sample is always a string of digits, and it is `42` when no position holds a declaration |
| MockC.IntSampleIsFirstDeclaration | app/page.tsx:429-433 | the sample is the digits of the leftmost declaration in the whole text, wherever the printf is |
| MockC.IntSearchHasNoWordBoundary | app/page.tsx:431 | in `print x = 3` the `int` inside `print` matches, and the sample is `3` |
| MockC.RenderFormat | app/page.tsx:423-445 | rewriting `formatString` step by step gives the line `Render` specifies |
| MockC.Render | app/page.tsx:423-445 | the line for one call: substitution only with a non-empty argument fragment, then un-escaping; stated by `RenderWithoutArgs`, `EveryDecimalGetsTheSample` and `DecimalSurvivesWithoutArgs` |
| MockC.Substitute | app/page.tsx:429-437 | the five placeholder replaces in page order, stated by `EveryDecimalGetsTheSample` and `SubstituteWithoutPercent` |
| MockC.Unescape | app/page.tsx:441-443 | the three escape replaces in page order, stated by `UnescapeWithoutBackslash` and `UnescapeOrder` |
| MockC.RenderWithoutArgs | app/page.tsx:427-443 | with no argument fragment, or an empty one, every format (escapes included) is only un-escaped, so its placeholders survive; the line does not depend on the rest of the code; a format without backslashes comes out exactly as written |
| MockC.DecimalSurvivesWithoutArgs | app/page.tsx:427-443 | `printf("%d\n")` with no argument prints `%d` and a newline |
| MockC.EveryDecimalGetsTheSample | app/page.tsx:429-433 | with an argument fragment, every `%d` of the format becomes the same sample value |
| MockC.SubstituteWithoutPercent | app/page.tsx:429-437 | a format without `%` is unchanged by the placeholder substitution |
| MockC.UnescapeWithoutBackslash | app/page.tsx:441-443 | a line without a backslash is unchanged by un-escaping |
| MockC.UnescapeOrder | app/page.tsx:441-443 | escapes are undone in the fixed order `\n`, `\t`, `\\`: an escaped backslash before `n` becomes a backslash and a newline |
| MockC.CallOf | app/page.tsx:421-424 | a matched text is re-read into a call exactly when the pattern matches somewhere in it |
| MockC.RenderAll | app/page.tsx:420-447 | the `forEach` pushes one rendered line per matched text that re-matches, in order |
| MockC.RenderedLines | app/page.tsx:419-447 | the lines the `forEach` pushes, one per matched text that re-matches, in order; stated by `RenderAll` |
| MockC.CLines | app/page.tsx:419-454 | the lines after the preamble: the rendered calls, or the fallback when the scan is `null` and the text contains `main`; stated by `CResultAsWritten` and `CResultLines` |
| MockC.CResult | app/page.tsx:456-459 | what `executeC` returns; it is never an error, and `CResultAsWritten`, `CResultLines` and `CResultStartsWithPreamble` state its output |
| MockC.ExecuteC | app/page.tsx:405-466 | pushing the preamble, the rendered lines or the fallback, and joining with newlines gives `CResult` |
| MockC.CResultStartsWithPreamble | app/page.tsx:411-459 | the C result is never an error, and its output begins with the four preamble lines joined by newlines |
| MockC.CResultAsWritten | app/page.tsx:417-459 | the C output is exactly the preamble, plus `Program executed successfully` and `Exit code: 0` when the text contains `main` |
| MockC.CResultLines | app/page.tsx:451-459 | read back at newlines, the C output is exactly those four or six lines |
| MockJs.ExecuteJavaScript | app/page.tsx:372-403 | pushing one line per console call and then choosing between the joined lines, the sentinel and the error gives `JsResult` |
| MockJs.ThrowDiscardsLogs | app/page.tsx:397-401 | a run that throws is an error whose output is `❌ Runtime Error: ` followed by the message, and what it logged before is discarded |
| MockJs.SilentRunShowsSentinel | app/page.tsx:393-396 | a run with no console call and no throw shows `✓ Code executed successfully (no output)` and is not an error |
| MockJs.JsResult | app/page.tsx:393-401 | what `executeJavaScript` returns; it is an error exactly when the run threw |
| MockJs.Prefix | app/page.tsx:376-387 | no prefix for `log`, and `ERROR: `, `WARNING: `, `INFO: ` for the others; stated by `FormatCall` and `CallLineParts` |
| MockJs.ArgText | app/page.tsx:377-386 | only `log` serialises objects as JSON, the others print `String(arg)`; `SingleArgumentLine` states the JSON half and `SeverityLinesUseStringForm` the `String` half |
| MockJs.FormatCall | app/page.tsx:376-387 | the line one console call pushes; it starts with the level's prefix, and `SingleArgumentLine` with `ArgumentsJoinedBySpaces` fix the rest |
| MockJs.SingleArgumentLine | app/page.tsx:376-387 | a one-argument call prints its prefix and the argument's text; `log` of an object prints exactly its `JSON.stringify(arg, null, 2)` text; a non-object prints its `String` text; a call with no argument prints only its prefix |
| MockJs.OneCallOneLine | app/page.tsx:374-396 | a run with a single console call that does not throw prints exactly that call's line |
| MockJs.OutputOfConsecutiveCalls | app/page.tsx:374-396 | for any lines at all, the output of the calls `c1` then `c2` is the output of `c1`, a newline and the output of `c2`, so lines appear in call order |
| MockJs.ArgumentsJoinedBySpaces | app/page.tsx:376-387 | for any argument texts, the line for the arguments `a` then `b` is the line for `a`, one space, and the texts of `b` joined by spaces |
| MockJs.LinesInCallOrder | app/page.tsx:374-396 | when no line holds a newline, the output read back at newlines is exactly one line per console call in call order |
| MockJs.CallLineParts | app/page.tsx:376-387 | when no argument text holds a space, a call's line read back at spaces after its prefix gives the argument texts one by one |
| MockJs.SeverityLinesUseStringForm | app/page.tsx:379-387 | `error`, `warn` and `info` lines are their prefix before what `String(arg)` prints, never the JSON form |
| MockJs.AsPrimitives | app/page.tsx:377 | clearing the object flag keeps every argument's `String` text |
| Console.FindIn | app/page.tsx:473 | `languages.find` returns the first table entry with that id, and returns nothing only when no entry has it |
| Console.FindLanguage | app/page.tsx:473 | `languages.find` on the page's five-entry table; stated by `FindIn` and `KindOfRun` |
| Console.NameText | app/page.tsx:479 | `${currentLang?.name}`: the name, or "undefined" for an unknown id; stated by `UnknownLanguageNamedUndefined` |
| Console.ComingSoon | app/page.tsx:500 | the coming-soon message naming the language twice; `UnsupportedIgnoresCode` states that it depends only on the language and is not an error |
| Console.CommandEntry | app/page.tsx:476-481 | the `▶ Running … code...` command entry; stated by `WebConsole.Run` and `UnknownLanguageNamedUndefined` |
| Console.OutputEntry | app/page.tsx:504-509 | the result entry, whose type `KindOfRun` states |
| Console.UnknownLanguageNamedUndefined | app/page.tsx:473-506 | for an id missing from the table, the command entry reads `▶ Running undefined code...` and the result is an info entry with the coming-soon message for "undefined" |
| Console.Dispatch | app/page.tsx:491-502 | the strategy by language id; the result is an error exactly for JavaScript that threw |
| Console.OutputKind | app/page.tsx:506 | the type of the output entry, stated by `KindOfRun` |
| Console.KindOfRun | app/page.tsx:491-506 | the output entry is an error exactly for JavaScript that threw, output exactly for C and for JavaScript that did not throw, and info exactly for every other language |
| Console.UnsupportedIgnoresCode | app/page.tsx:499-502 | for a language without a strategy the result depends only on the language, and it is not an error |
| Console.EntryColor | app/page.tsx:542-555 | the colour of an entry kind, stated by `StylesTellKindsApart` |
| Console.EntryIcon | app/page.tsx:557-570 | the icon of an entry kind, stated by `StylesTellKindsApart` |
| Console.IsBlank | app/page.tsx:469 | `!code.trim()`: every character is white space or a line terminator; `WebConsole.Run` leaves the history alone exactly then |
| Console.StylesTellKindsApart | app/page.tsx:542-570 | different entry kinds get different colours and different icons |
| Console.AnsweredAppend | app/page.tsx:483-510 | appending a command entry followed by a result entry keeps every command entry followed by its result |
| Console.WebConsole.constructor | app/page.tsx:265-276 | the console opens with the welcome message as its only entry, and nothing is running |
| Console.WebConsole.Run | app/page.tsx:468-513 | blank code leaves the history alone; otherwise exactly the command entry and then the result entry are appended, earlier entries are kept, and nothing is left running |
| Console.WebConsole.Clear | app/page.tsx:515-517 | the history becomes empty |

## Left out

- Monaco loading, editor wiring, keyboard shortcuts and auto-scroll: these are DOM work and third-party scripts.
- Copying to the clipboard and the copied-state timer: these are browser APIs and timers.
- The artificial delay before a result and the asynchronous scheduling around it. A run is one atomic step, so `isRunning` being true during the delay cannot be observed in the model. On the page the Clear Output button stays enabled during a run. A clear during the delay therefore leaves a result entry without its command entry, and overlapping runs would interleave their entries. `Answered` and `WebConsole.Valid` hold only for the atomic runs of the model, not for the page under interleaving.
- Console calls that user code makes asynchronously after it returns.
- Console.WebConsole.Run: it does not model a thrown value whose `String(…)` itself throws, such as `Object.create(null)`. On the page that second exception escapes `executeJavaScript` and `executeCode`, so only the command entry is appended and `isRunning` stays true, which leaves the Run button disabled. In the model the thrown value is already text, so a run always appends two entries and ends with nothing running.
- Running the user's JavaScript through `new Function`. The model takes what the run did as an input (`MockJs.Evaluation`).
- What `JSON.stringify` and `String` print for a value. These are foreign formatting, so each argument carries its texts.
- `Date.now()` ids and `new Date()` timestamps. These depend on the clock and are supplied by the caller as a `Stamp`.
- All JSX and CSS, and app/layout.tsx. These are markup without logic.
- The `lines` split at the top of `executeC`. Its result is never used.
- The `catch` branch of `executeC` ("Compilation Error"). Nothing in the modelled string operations can throw, so that branch is unreachable in the model.
- The `default` branches of `getEntryColor` and `getEntryIcon`. The entry type admits only the four kinds, so those branches are unreachable.
- Pattern: runs are matched without giving characters back. This is not general backtracking, and it only agrees with backtracking for the two patterns used here.
- Pattern.MatchAll: it does not model the `lastIndex` handling of a `g` match beyond moving one character on after an empty match. That handling is never exercised, because the scan matches nowhere.
