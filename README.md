# Questionnaire engine of a Telegram scoring bot, modelled in Dafny

This project models the core of a Telegram bot that runs a diagnostic
questionnaire (the MOSF multiple-organ-failure score). It asks the questions
one by one, collects the score of each chosen answer, adds them up, and turns
the total into a diagnosis through range rules such as `"0-5"`, `"<=3"` and
`">=8"`.

Modules, leaf to root:

- `Wrappers` (`wrappers.dfy`): `Option` stands for a Java `null` return and
  `Result` for a thrown exception.
- `Entries` (`entries.dfy`): association lists with distinct keys. They model
  a Java `Map` in its iteration order, with `Map.get` as `Get` and
  insertion-ordered `Map.put` as `Put`.
- `JavaText` (`java_text.dfy`): the `String` and `Integer` operations the core
  relies on: `trim`, `split("-")`, `startsWith`, `contains` and
  `Integer.parseInt`, including the `int` range.
- `Questions` (`question.dfy`): `Question`, an immutable value holding the
  question text, the measured parameter and the answer options with their
  scores.
- `Tests` (`test.dfy`): the range check `IsScoreInRange` and the first-match
  diagnosis `Diagnose`. The class `Test` holds the name, the question list and
  the ordered rules, and has `AddQuestion`, `AddDiagnosisRule` and
  `EvaluateDiagnosis`.
- `Sessions` (`session.dfy`): the class `Session`, a cursor over a shared
  `Test` plus a parameter-to-score map. Beside it are the value-level
  specifications `Advance` and `CurrentAt`, and the order-free sum
  `SumValues`.
- `Bot` (`bot.dfy`): the class `ControllerBot`. It holds the loaded tests and
  the `chatId → Session` registry, with handlers for `/mosftest`, answers and
  `/cancel`, and the `processMessage` switch. Replies are the datatype `Reply`.
  `AnswerStep` gives, for one chat, the reply, the session afterwards and
  whether the session stays registered.

Each in-place operation is a method. Its `ensures` states the new state as a
function of the old one (`Put`, `Advance`, `AskNext`, `AnswerStep`), and the
lemmas prove the promised properties about those functions.

Behaviour of the code that the model keeps, as written:

- `Integer.parseInt` throws on a malformed bound, so a malformed range is an
  error, not a non-match. The model returns `Malformed(NumberFormat)` for a
  bound that is not an integer. It returns `Malformed(BoundMissing)` when
  `split` leaves too few pieces (`"5-"`, `"-"`), which is an
  `ArrayIndexOutOfBoundsException`.
- In the bot, a `NumberFormatException` from the diagnosis is caught by the
  answer handler's number-format branch (`src/main/ControllerBot.java:274`),
  so the user is asked to type a number. An index exception is caught by the
  generic branch (`:277`). In both cases the session stays registered, with
  the last answer already recorded, because the removal comes after the
  diagnosis.
- A range holding a dash anywhere is read as `"A-B"`, so `"<=-3"` fails to
  parse rather than meaning "at most −3" (`NegativeBoundIsMalformed`), and
  `"-5"` fails on its empty lower bound (`DashRangeBadLower`).
- The comment on `getCurrentQuestion` (`src/main/Session.java:86`) says it
  gives null once the questions are finished. The cursor never passes the
  question count, so after the last question it keeps returning the last one
  (`Sessions.Session.GetCurrentQuestion`).

## Model

| member | source | states |
|---|---|---|
| `Questions.NewQuestion` | src/main/Question.java:31-39 | the question keeps text and parameter, answers every score lookup exactly as the given map did (a copy), and a null map gives no options |
| `Questions.PossibleAnswers` | src/main/Question.java:67-69 | one label per answer option, no label twice |
| `Questions.ValueForAnswer` | src/main/Question.java:76-78 | a score exactly for the option labels, and it is that option's score; any other string gives none (null) |
| `Questions.AnswerValues` | src/main/Question.java:59-61 | the copied map has exactly the option labels as keys, each with its option's score |
| `Questions.LabelsHaveScores` | src/main/Question.java:67-78 | every label offered to the user has a (non-null) score, the one of its own option |
| `Entries.Get` | src/main/Question.java:77 | `Map.get` finds a key iff it is among the keys, with a value stored under it |
| `Entries.Put` | src/main/Test.java:54 | `put` keeps keys distinct; an existing key keeps the key order, a new key is appended |
| `Entries.PutGet` | src/main/Test.java:53-55 | after `put`, the key holds the new value and every other key holds what it held |
| `Entries.ToMap` | src/main/Question.java:60 | the map copy has the same keys and answers every lookup with the same value |
| `JavaText.TrimStart` | src/main/Test.java:98 | the trimmed text is no longer than the input and never starts with a character up to U+0020 |
| `JavaText.TrimStartDrops` | src/main/Test.java:98 | `trim` keeps a suffix of the text, and every character it removes in front is one up to U+0020 |
| `JavaText.TrimEnd` | src/main/Test.java:98 | the trimmed text is no longer than the input and never ends with a character up to U+0020 |
| `JavaText.TrimEndDrops` | src/main/Test.java:98 | `trim` keeps a prefix of the text, and every character it removes at the end is one up to U+0020 |
| `JavaText.RawSplitJoin` | src/main/Test.java:97 | the pieces hold no separator and, joined with it, give back the string |
| `JavaText.DropTrailingEmpty` | src/main/Test.java:97 | `split` keeps a prefix of the pieces whose last piece, if any, is not empty |
| `JavaText.DropTrailingEmptyDropsEmpty` | src/main/Test.java:97 | every piece `split` drops at the end is empty |
| `JavaText.SplitTwo` | src/main/Test.java:97 | `"A-B".split("-")` is `[A, B]` for dash-free A and non-empty dash-free B |
| `JavaText.SplitFirst` | src/main/Test.java:97-98 | a non-empty dash-free head is always the first piece |
| `JavaText.ParseInt` | src/main/ControllerBot.java:249 | a parsed value lies in the Java `int` range, and the empty string never parses |
| `JavaText.ParseDecimal` | src/main/ControllerBot.java:249 | parsing the decimal form of an `int`-sized natural number gives it back |
| `JavaText.ParsePaddedDecimal` | src/main/ControllerBot.java:249 | a leading `+` or a leading zero in front of the decimal form reads the same number |
| `Tests.IsScoreInRange` | src/main/Test.java:94-111 | only a range with a dash, or starting with `<=` or `>=`, can match or fail; anything else never matches |
| `Tests.DashRange` | src/main/Test.java:95-100 | `"A-B"` matches exactly the scores from trimmed A to trimmed B inclusive |
| `Tests.DashRangeBadLower` | src/main/Test.java:95-99 | `"A-B"` whose lower bound is not an integer (an empty one included, as in `"-5"`) is a number-format error |
| `Tests.DashRangeBadUpper` | src/main/Test.java:95-100 | `"A-B"` with an integer lower bound and a non-integer upper bound is a number-format error |
| `Tests.DashAlone` | src/main/Test.java:97-98 | `"-"` splits into no pieces, so reading its lower bound is an index error |
| `Tests.DashRangeWithoutUpper` | src/main/Test.java:97-99 | `"A-"` gives a single piece, so reading the upper bound fails (index error) |
| `Tests.NegativeBoundIsMalformed` | src/main/Test.java:95-98 | the dash test runs first, so `"<=-X"` is a number-format error, not an upper bound |
| `Tests.AtMostRange` | src/main/Test.java:101-104 | dash-free `"<=X"` matches iff score ≤ the parsed trimmed X, never fails when X parses, and is a number-format error when it does not |
| `Tests.AtLeastRange` | src/main/Test.java:105-108 | dash-free `">=Y"` matches iff score ≥ the parsed trimmed Y, never fails when Y parses, and is a number-format error when it does not |
| `Tests.AtMostBoundary` | src/main/Test.java:101-104 | `"<=5"` matches 5 and not 6 |
| `Tests.AtLeastBoundary` | src/main/Test.java:105-108 | `">=5"` matches 5 and not 4 |
| `Tests.SinglePointRange` | src/main/Test.java:95-100 | `"2-2"` matches 2 and nothing else |
| `Tests.DiagnoseFirstMatch` | src/main/Test.java:78-86 | when rule i is the first whose range matches or fails to read, the diagnosis is rule i's, or its read error propagates; when no range matches, the fixed "undetermined" text |
| `Tests.DiagnoseIgnoresLater` | src/main/Test.java:80-84 | rules after a decisive one, overlapping or not, never change the result |
| `Tests.OverlapGoesToFirst` | src/main/Test.java:80-84 | with `"0-5"` before `"3-10"`, score 4 gets the first diagnosis |
| `Tests.Test.constructor` | src/main/Test.java:30-38 | null questions or rules become empty ones |
| `Tests.Test.AddQuestion` | src/main/Test.java:44-46 | the question is appended and `getQuestions` returns the earlier list plus it, in order |
| `Tests.Test.AddDiagnosisRule` | src/main/Test.java:53-55 | a known range keeps the rule count and gets the new diagnosis; a new range adds exactly one rule; other ranges are unchanged |
| `Tests.Test.EvaluateDiagnosis` | src/main/Test.java:78-86 | the loop with early return gives exactly the first-match diagnosis `Diagnose` |
| `Sessions.AdvanceRunFrom` | src/main/Session.java:35-40 | successive calls from any cursor hand out the remaining questions in order, then null, and the cursor stops at the count |
| `Sessions.AdvanceRunFromStart` | src/main/Session.java:35-40 | from a fresh session, n calls give the questions in declared order and later calls give null; the session is complete iff at least n calls were made; the current question is the last one handed out |
| `Sessions.SumValuesRemove` | src/main/Session.java:64 | the sum of the recorded scores does not depend on the map's iteration order |
| `Sessions.SumValuesPut` | src/main/Session.java:47-49 | a second score for a parameter replaces the first in the total instead of adding to it |
| `Sessions.Session.constructor` | src/main/Session.java:25-29 | a new session is at cursor 0 with no recorded answers, on the given test |
| `Sessions.Session.GetNextQuestion` | src/main/Session.java:35-40 | below the count, returns the question at the cursor and moves the cursor by exactly one; otherwise null with nothing changed; only the cursor changes, never the test; the cursor never passes the count; the returned question becomes the current one |
| `Sessions.Session.IsComplete` | src/main/Session.java:55-57 | complete exactly when the next `getNextQuestion` would give null |
| `Sessions.Session.GetCurrentQuestion` | src/main/Session.java:88-93 | the question numbered by `getCurrentQuestionNumber` when that number is within 1..count, else null; with the cursor within the test, null exactly before the first question is handed out |
| `Sessions.Session.RecordAnswer` | src/main/Session.java:47-49 | the parameter maps to the value, other parameters and the cursor are unchanged, and the total changes by the difference |
| `Sessions.Session.GetDiagnosisResult` | src/main/Session.java:63-66 | the diagnosis of the sum of all recorded scores, whether or not the session is complete |
| `Bot.Route` | src/main/ControllerBot.java:123-138 | exact `/start`, `/help`, `/mosftest`, `/cancel` go to their handlers; every other text is an answer |
| `Bot.FindMosfTest` | src/main/ControllerBot.java:164-167 | the first loaded test whose name contains "MOSF", or none when no name does |
| `Bot.AnswerWithoutQuestion` | src/main/ControllerBot.java:241-245 | an answer with no outstanding question changes nothing |
| `Bot.InvalidAnswerChangesNothing` | src/main/ControllerBot.java:248-254 | non-numeric text gets the "enter a number" reply (`:274-276`) and a number outside 1..options the "choose a listed number" reply; neither changes the session |
| `Bot.AnswerStepChosen` | src/main/ControllerBot.java:248-259 | any text `parseInt` reads as a listed option number k records option k's score under the question's parameter, then goes on as after any recorded answer |
| `Bot.AfterRecordAdvances` | src/main/ControllerBot.java:262-272 | after an answer before the last question, the next question is handed out exactly once and the session stays |
| `Bot.ValidAnswerAdvances` | src/main/ControllerBot.java:248-272 | any text read as a listed option number before the last question records the score under the question's parameter and hands out the next question exactly once |
| `Bot.ValidAnswerFinishes` | src/main/ControllerBot.java:248-270 | any text read as a listed option number for the last question records the score; the session is removed with the diagnosis of the total, or stays when reading a range fails |
| `Bot.ExampleDiagnosis` | src/main/Test.java:78-86 | with rules `"0-1"`, `"2-5"`, a total of 3 gets the second diagnosis |
| `Bot.ExampleRun` | src/main/ControllerBot.java:230-273 | a two-question MOSF run answered with option 2 twice (scores 1 and 2) finishes with the "2-5" diagnosis and the session removed |
| `Bot.ControllerBot.constructor` | src/main/ControllerBot.java:31-34 | the bot starts with the given tests and no sessions |
| `Bot.ControllerBot.AskNextQuestion` | src/main/ControllerBot.java:190-197 | the session advances exactly once; a null question gives the "no questions" reply |
| `Bot.ControllerBot.StartMosfTest` | src/main/ControllerBot.java:160-184 | without a MOSF test the registry is unchanged; otherwise this chat gets a fresh session on the first MOSF test, replacing any earlier one, advanced once; other chats are untouched |
| `Bot.ControllerBot.HandleUserResponse` | src/main/ControllerBot.java:230-281 | no session gives a reply and no change; otherwise the chat's session and registration change exactly as `AnswerStep` says; no other chat is touched |
| `Bot.ControllerBot.RecordChoice` | src/main/ControllerBot.java:258-277 | records the chosen score; a complete session is diagnosed and removed unless reading a range fails, an incomplete one advances once; no other chat is touched |
| `Bot.ControllerBot.CancelSession` | src/main/ControllerBot.java:286-300 | the chat's session is removed iff present, and the reply says which; cancelling an absent session changes nothing |
| `Bot.ControllerBot.ProcessMessage` | src/main/ControllerBot.java:120-139 | each command has its handler's effect on this chat only; `/start` and `/help` change neither the registry nor this chat's session; no command but an answer touches this chat's existing session object |

## Left out

- Credential loading from `config.env` and the constructor's exceptions (`src/main/ControllerBot.java:41-66`): environment I/O. The bot's constructor takes the loaded tests as its argument.
- JSON configuration loading with Jackson (`src/main/ControllerBot.java:74-94`): a foreign parser. Its result is the list of tests given to the constructor.
- Telegram transport: `onUpdateReceived`, `execute`, `createMessage`, the reply keyboard, the welcome and help texts, and the `StringBuilder` formatting of a question. Replies are the abstract `Reply` values. `Ask` carries the question number, the total, the question and its numbered labels.
- Logging: no effect on state.
- HashMap iteration order: the answer labels and the diagnosis rules are kept in one fixed order, the stored order of the entries. The order Java's hashing would give is not modelled.
- Aliasing in the `Test` constructor: Java keeps the caller's list and map by reference. The model takes values, so later changes by the caller are not modelled.
- Null strings and null scores: test names, question texts, parameter names and answer scores are never null in the model. So the `NullPointerException` paths are not modelled: a null test name in `startMosfTest`, and unboxing a null score at `src/main/ControllerBot.java:259`.
- The `catch (Exception)` branches in `startMosfTest` and `askNextQuestion` are not modelled: with the above excluded, nothing in those blocks throws.
- Java `int` overflow of the score sum (`src/main/Session.java:64`): the total is an unbounded integer.
- `Integer.parseInt` on non-ASCII Unicode digits: only ASCII digits with an optional sign are read. The `int` range is enforced.
- `getQuestionText`, `getParameterName`, `getTestName`, `getCurrentQuestionNumber`, `getTotalQuestions` and `Session.getQuestions` are plain reads: datatype fields, a `const`, or functions without contracts of their own.
- Concurrency of the long-polling library: the core has none of its own, and each handler runs to completion.
