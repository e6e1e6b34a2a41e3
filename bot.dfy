/**
 * The bot's dispatch logic: the registry of sessions by chat id and the
 * transitions driven by commands and answers.  Replies are abstract values;
 * building and sending the chat messages is left to the transport.
 */
module Bot {
  import opened Wrappers
  import opened JavaText
  import opened Questions
  import opened Tests
  import opened Sessions

  /** The reply to one message, without its wording. */
  datatype Reply =
    | Welcome                 // the greeting for "/start"
    | Help                    // the command list for "/help"
    | TestUnavailable         // no test with "MOSF" in its name is loaded
    | Ask(number: nat, total: nat, question: Question, options: seq<string>)
    | NoQuestionsLeft         // the session had no question left to hand out
    | NoActiveTest            // an answer from a chat without a session
    | NoCurrentQuestion       // an answer while no question is outstanding
    | ChooseListedNumber      // a number outside the listed options
    | EnterNumber             // a NumberFormatException while handling an answer
    | Finished(diagnosis: string)
    | AnswerFailed            // any other exception while handling an answer
    | Cancelled
    | NothingToCancel

  datatype Command = StartCommand | HelpCommand | MosfTestCommand | CancelCommand | AnswerText(text: string)

  /** `processMessage`'s switch: the four exact commands, and everything else is an answer. */
  function Route(message: string): (c: Command)
    ensures c.AnswerText? <==> message !in {"/start", "/help", "/mosftest", "/cancel"}
    ensures c.AnswerText? ==> c.text == message
    ensures c == StartCommand <==> message == "/start"
    ensures c == HelpCommand <==> message == "/help"
    ensures c == MosfTestCommand <==> message == "/mosftest"
    ensures c == CancelCommand <==> message == "/cancel"
  {
    if message == "/start" then StartCommand
    else if message == "/help" then HelpCommand
    else if message == "/mosftest" then MosfTestCommand
    else if message == "/cancel" then CancelCommand
    else AnswerText(message)
  }

  /** The position of the first loaded test whose name contains "MOSF". */
  function FindMosfTest(tests: seq<Test>): (r: Option<nat>)
    ensures r.None? ==> forall i | 0 <= i < |tests| :: !Contains(tests[i].testName, "MOSF")
    ensures r.Some? ==> r.value < |tests| && Contains(tests[r.value].testName, "MOSF")
    ensures r.Some? ==> forall j | 0 <= j < r.value :: !Contains(tests[j].testName, "MOSF")
  {
    if tests == [] then None
    else if Contains(tests[0].testName, "MOSF") then Some(0)
    else
      match FindMosfTest(tests[1..])
      case None => None
      case Some(i) => Some(i + 1)
  }

  /** `askNextQuestion`, as far as the session is concerned: advance once and show what came out. */
  function AskNext(qs: seq<Question>, st: SessionState): (Reply, SessionState) {
    var (q, cursor) := Advance(qs, st.cursor);
    match q
    case None => (NoQuestionsLeft, st.(cursor := cursor))
    case Some(question) => (Ask(cursor, |qs|, question, PossibleAnswers(question)), st.(cursor := cursor))
  }

  /** The reply, the session afterwards, and whether the session stays registered. */
  datatype AnswerOutcome = AnswerOutcome(reply: Reply, state: SessionState, keep: bool)

  /**
   * `handleUserResponse` for a chat that has a session on test questions `qs`
   * and rules `rules`.  A diagnosis that fails with a malformed range is
   * caught after the answer was recorded and before the session is removed,
   * so the session stays.
   */
  ghost function AnswerStep(qs: seq<Question>, rules: seq<(string, string)>, st: SessionState, message: string): AnswerOutcome {
    match CurrentAt(qs, st.cursor)
    case None => AnswerOutcome(NoCurrentQuestion, st, true)
    case Some(q) =>
      var options := PossibleAnswers(q);
      match ParseInt(message)
      case None => AnswerOutcome(EnterNumber, st, true)
      case Some(n) =>
        var index := n - 1;
        if index < 0 || index >= |options| then AnswerOutcome(ChooseListedNumber, st, true)
        else
          LabelsHaveScores(q);
          var score := ValueForAnswer(q, options[index]).value;
          AfterRecord(qs, rules, st.(answers := st.answers[q.parameterName := score]))
  }

  /**
   * What follows once the answer is recorded: a complete session is
   * diagnosed and removed, unless the diagnosis throws; an incomplete one
   * is advanced.
   */
  ghost function AfterRecord(qs: seq<Question>, rules: seq<(string, string)>, recorded: SessionState): AnswerOutcome {
    if recorded.cursor >= |qs| then
      match Diagnose(rules, SumValues(recorded.answers))
      case Success(d) => AnswerOutcome(Finished(d), recorded, false)
      case Failure(NumberFormat) => AnswerOutcome(EnterNumber, recorded, true)
      case Failure(BoundMissing) => AnswerOutcome(AnswerFailed, recorded, true)
    else
      var (reply, next) := AskNext(qs, recorded);
      AnswerOutcome(reply, next, true)
  }

  /** An answer while no question is outstanding changes nothing. */
  lemma AnswerWithoutQuestion(qs: seq<Question>, rules: seq<(string, string)>, st: SessionState, message: string)
    requires CurrentAt(qs, st.cursor).None?
    ensures AnswerStep(qs, rules, st, message) == AnswerOutcome(NoCurrentQuestion, st, true)
  {
  }

  /**
   * Text that is not a number asks for a number, and a number outside
   * 1..options asks for a listed one; neither changes the session.
   */
  lemma InvalidAnswerChangesNothing(qs: seq<Question>, rules: seq<(string, string)>, st: SessionState, message: string)
    requires CurrentAt(qs, st.cursor).Some?
    requires var options := PossibleAnswers(CurrentAt(qs, st.cursor).value);
      ParseInt(message).None? || !(1 <= ParseInt(message).value <= |options|)
    ensures var out := AnswerStep(qs, rules, st, message);
      && out.state == st && out.keep
      && out.reply == if ParseInt(message).None? then EnterNumber else ChooseListedNumber
  {
  }

  /**
   * Any text `Integer.parseInt` reads as a listed option number `k` ("2",
   * "02", "+2") records that option's score under the question's parameter
   * and goes on as `AfterRecord` says.
   */
  lemma AnswerStepChosen(qs: seq<Question>, rules: seq<(string, string)>, st: SessionState, message: string, k: nat)
    requires CurrentAt(qs, st.cursor).Some?
    requires ParseInt(message) == Some(k) && 1 <= k <= |CurrentAt(qs, st.cursor).value.answerValues|
    ensures var q := CurrentAt(qs, st.cursor).value;
      AnswerStep(qs, rules, st, message) ==
        AfterRecord(qs, rules, st.(answers := st.answers[q.parameterName := q.answerValues[k - 1].1]))
  {
    LabelsHaveScores(CurrentAt(qs, st.cursor).value);
  }

  /**
   * Recording option `k` of `q` before the last question hands out the next
   * question and keeps the session.
   */
  lemma AfterRecordAdvances(qs: seq<Question>, rules: seq<(string, string)>, st: SessionState, q: Question, k: nat)
    requires st.cursor < |qs|
    requires 1 <= k <= |q.answerValues|
    ensures AfterRecord(qs, rules, SessionState(st.cursor, st.answers[q.parameterName := q.answerValues[k - 1].1])) ==
      AnswerOutcome(
        Ask(st.cursor + 1, |qs|, qs[st.cursor], PossibleAnswers(qs[st.cursor])),
        SessionState(st.cursor + 1, st.answers[q.parameterName := q.answerValues[k - 1].1]),
        true)
  {
  }

  /**
   * Answering option `k` of a question that is not the last records that
   * option's score under the question's parameter and hands out the next
   * question.
   */
  lemma ValidAnswerAdvances(qs: seq<Question>, rules: seq<(string, string)>, st: SessionState, message: string, k: nat)
    requires CurrentAt(qs, st.cursor).Some? && st.cursor < |qs|
    requires ParseInt(message) == Some(k) && 1 <= k <= |CurrentAt(qs, st.cursor).value.answerValues|
    ensures var q := CurrentAt(qs, st.cursor).value;
      AnswerStep(qs, rules, st, message) == AnswerOutcome(
        Ask(st.cursor + 1, |qs|, qs[st.cursor], PossibleAnswers(qs[st.cursor])),
        SessionState(st.cursor + 1, st.answers[q.parameterName := q.answerValues[k - 1].1]),
        true)
  {
    var q := CurrentAt(qs, st.cursor).value;
    AnswerStepChosen(qs, rules, st, message, k);
    AfterRecordAdvances(qs, rules, st, q, k);
  }

  /**
   * Answering option `k` of the last question records its score and ends
   * the session with the diagnosis of the total; when reading a range fails
   * instead, the session stays, with the answer recorded.
   */
  lemma ValidAnswerFinishes(qs: seq<Question>, rules: seq<(string, string)>, st: SessionState, message: string, k: nat)
    requires CurrentAt(qs, st.cursor).Some? && st.cursor >= |qs|
    requires ParseInt(message) == Some(k) && 1 <= k <= |CurrentAt(qs, st.cursor).value.answerValues|
    ensures var q := CurrentAt(qs, st.cursor).value;
      var recorded := st.(answers := st.answers[q.parameterName := q.answerValues[k - 1].1]);
      var out := AnswerStep(qs, rules, st, message);
      && out.state == recorded
      && (out.keep <==> Diagnose(rules, SumValues(recorded.answers)).Failure?)
      && (Diagnose(rules, SumValues(recorded.answers)).Success? ==>
            out.reply == Finished(Diagnose(rules, SumValues(recorded.answers)).value))
  {
    AnswerStepChosen(qs, rules, st, message, k);
  }

  /** A two-question MOSF test and its rules, for the worked example below. */
  const OrganA: Question := Question("Q1", "organA", [("none", 0), ("mild", 1), ("severe", 3)])
  const OrganB: Question := Question("Q2", "organB", [("none", 0), ("severe", 2)])
  const ExampleRules: seq<(string, string)> := [("0-1", "Low risk"), ("2-5", "High risk")]

  lemma ExampleLowRange()
    ensures IsScoreInRange(3, "0-1") == OutOfRange
  {
    ParseDigit(0);
    ParseDigit(1);
    assert "0-1" == "0" + "-" + "1";
    DashRange("0", "1", 0, 1, 3);
  }

  lemma ExampleHighRange()
    ensures IsScoreInRange(3, "2-5") == InRange
  {
    ParseDigit(2);
    ParseDigit(5);
    assert "2-5" == "2" + "-" + "5";
    DashRange("2", "5", 2, 5, 3);
  }

  /** A total of 3 lies outside "0-1" and inside "2-5". */
  lemma ExampleDiagnosis()
    ensures Diagnose(ExampleRules, 3) == Success("High risk")
  {
    ExampleLowRange();
    ExampleHighRange();
    var rest := ExampleRules[1..];
    assert rest == [("2-5", "High risk")];
    assert Diagnose(rest, 3) == Success("High risk");
  }

  /**
   * Answering "mild" (option 2, score 1) and then "severe" (option 2,
   * score 2) ends the run with the diagnosis of the total 3, and the session
   * is removed.
   */
  lemma ExampleRun()
    ensures
      var qs := [OrganA, OrganB];
      var (first, start) := AskNext(qs, SessionState(0, map[]));
      var second := AnswerStep(qs, ExampleRules, start, "2");
      var last := AnswerStep(qs, ExampleRules, second.state, "2");
      && first.Ask? && first.question == OrganA
      && second.keep && second.reply.Ask? && second.reply.question == OrganB
      && !last.keep && last.reply == Finished("High risk")
  {
    var qs := [OrganA, OrganB];
    ParseDecimal(2);
    assert DecimalString(2) == "2";
    ValidAnswerAdvances(qs, ExampleRules, SessionState(1, map[]), "2", 2);
    var second := SessionState(2, map["organA" := 1]);
    ValidAnswerFinishes(qs, ExampleRules, second, "2", 2);
    var answers := map["organA" := 1, "organB" := 2];
    assert second.answers["organB" := 2] == answers;
    SumValuesPut(map[], "organA", 1);
    SumValuesPut(map["organA" := 1], "organB", 2);
    assert SumValues(answers) == 3;
    ExampleDiagnosis();
  }

  class ControllerBot {
    const availableTests: seq<Test>
    var userSessions: map<string, Session>

    /** No two chats share a session object, and no session's cursor has passed the end. */
    ghost predicate Valid()
      reads this, userSessions.Values, set s | s in userSessions.Values :: s.currentTest
    {
      && (forall c, d | c in userSessions && d in userSessions && c != d :: userSessions[c] != userSessions[d])
      && (forall c | c in userSessions :: userSessions[c].Valid())
    }

    /** The loaded tests are given; no chat has a session yet. */
    constructor (tests: seq<Test>)
      ensures availableTests == tests && userSessions == map[]
      ensures Valid()
    {
      availableTests := tests;
      userSessions := map[];
    }

    /** `askNextQuestion`: advances the session once; nothing else changes. */
    method AskNextQuestion(session: Session) returns (reply: Reply)
      modifies session`currentQuestionIndex
      ensures (reply, session.State()) == AskNext(session.currentTest.questions, old(session.State()))
      ensures old(session.Valid()) ==> session.Valid()
    {
      var next := session.GetNextQuestion();
      if next.None? {
        return NoQuestionsLeft;
      }
      reply := Ask(session.GetCurrentQuestionNumber(), session.GetTotalQuestions(), next.value, PossibleAnswers(next.value));
    }

    /**
     * `startMosfTest`: the first test named with "MOSF" gets a fresh session
     * for this chat, replacing any earlier one, and its first question is
     * handed out; without such a test nothing changes.
     */
    method StartMosfTest(chatId: string) returns (reply: Reply)
      requires Valid()
      modifies this
      ensures Valid()
      ensures userSessions - {chatId} == old(userSessions) - {chatId}
      ensures FindMosfTest(availableTests).None? ==> reply == TestUnavailable && userSessions == old(userSessions)
      ensures FindMosfTest(availableTests).Some? ==>
        var test := availableTests[FindMosfTest(availableTests).value];
        && chatId in userSessions && fresh(userSessions[chatId])
        && userSessions[chatId].currentTest == test
        && (reply, userSessions[chatId].State()) == AskNext(test.questions, SessionState(0, map[]))
    {
      var found := FindMosfTest(availableTests);
      if found.None? {
        return TestUnavailable;
      }
      var session := new Session(availableTests[found.value]);
      userSessions := userSessions[chatId := session];
      reply := AskNextQuestion(session);
    }

    /** `handleUserResponse`: the chat's session moves as `AnswerStep` says; no other chat is touched. */
    method HandleUserResponse(chatId: string, message: string) returns (reply: Reply)
      requires Valid()
      modifies this, if chatId in userSessions then {userSessions[chatId]} else {}
      ensures Valid()
      ensures chatId !in old(userSessions) ==> reply == NoActiveTest && userSessions == old(userSessions)
      ensures chatId in old(userSessions) ==>
        var s := old(userSessions[chatId]);
        var out := AnswerStep(s.currentTest.questions, s.currentTest.diagnosisRules, old(s.State()), message);
        && reply == out.reply && s.State() == out.state
        && userSessions == if out.keep then old(userSessions) else old(userSessions) - {chatId}
    {
      if chatId !in userSessions {
        return NoActiveTest;
      }
      var session := userSessions[chatId];
      var current := session.GetCurrentQuestion();
      if current.None? {
        return NoCurrentQuestion;
      }
      var q := current.value;
      var options := PossibleAnswers(q);
      var parsed := ParseInt(message);
      if parsed.None? {
        return EnterNumber;
      }
      var index := parsed.value - 1;
      if index < 0 || index >= |options| {
        return ChooseListedNumber;
      }
      LabelsHaveScores(q);
      var value := ValueForAnswer(q, options[index]).value;
      reply := RecordChoice(chatId, session, q.parameterName, value);
    }

    /**
     * The rest of `handleUserResponse` once an option was chosen: record its
     * score, then finish and remove the session, or hand out the next question.
     */
    method RecordChoice(chatId: string, session: Session, parameterName: string, value: int) returns (reply: Reply)
      requires Valid() && chatId in userSessions && userSessions[chatId] == session
      modifies this, session
      ensures Valid()
      ensures var out := AfterRecord(session.currentTest.questions, session.currentTest.diagnosisRules,
                                     old(session.State()).(answers := old(session.collectedAnswers)[parameterName := value]));
        && reply == out.reply && session.State() == out.state
        && userSessions == if out.keep then old(userSessions) else old(userSessions) - {chatId}
    {
      session.RecordAnswer(parameterName, value);
      if session.IsComplete() {
        var diagnosis := session.GetDiagnosisResult();
        match diagnosis
        case Failure(NumberFormat) =>
          return EnterNumber;
        case Failure(BoundMissing) =>
          return AnswerFailed;
        case Success(d) =>
          userSessions := userSessions - {chatId};
          return Finished(d);
      } else {
        reply := AskNextQuestion(session);
      }
    }

    /** `cancelSession`: the chat's session, if any, is removed. */
    method CancelSession(chatId: string) returns (reply: Reply)
      requires Valid()
      modifies this
      ensures Valid()
      ensures reply == if chatId in old(userSessions) then Cancelled else NothingToCancel
      ensures userSessions == old(userSessions) - {chatId}
    {
      if chatId in userSessions {
        userSessions := userSessions - {chatId};
        return Cancelled;
      }
      reply := NothingToCancel;
    }

    /** `processMessage`: every message is handled for its own chat only. */
    method ProcessMessage(chatId: string, message: string) returns (reply: Reply)
      requires Valid()
      modifies this, if chatId in userSessions then {userSessions[chatId]} else {}
      ensures Valid()
      ensures userSessions - {chatId} == old(userSessions) - {chatId}
      ensures Route(message) == StartCommand ==> reply == Welcome && userSessions == old(userSessions)
      ensures Route(message) == HelpCommand ==> reply == Help && userSessions == old(userSessions)
      ensures !Route(message).AnswerText? && chatId in old(userSessions) ==> unchanged(old(userSessions[chatId]))
      ensures Route(message) == CancelCommand ==>
        reply == (if chatId in old(userSessions) then Cancelled else NothingToCancel)
        && userSessions == old(userSessions) - {chatId}
      ensures Route(message) == MosfTestCommand ==>
        if FindMosfTest(availableTests).None? then reply == TestUnavailable && userSessions == old(userSessions)
        else
          var test := availableTests[FindMosfTest(availableTests).value];
          && chatId in userSessions && fresh(userSessions[chatId])
          && userSessions[chatId].currentTest == test
          && (reply, userSessions[chatId].State()) == AskNext(test.questions, SessionState(0, map[]))
      ensures Route(message).AnswerText? && chatId !in old(userSessions) ==>
        reply == NoActiveTest && userSessions == old(userSessions)
      ensures Route(message).AnswerText? && chatId in old(userSessions) ==>
        var s := old(userSessions[chatId]);
        var out := AnswerStep(s.currentTest.questions, s.currentTest.diagnosisRules, old(s.State()), message);
        && reply == out.reply && s.State() == out.state
        && userSessions == if out.keep then old(userSessions) else old(userSessions) - {chatId}
    {
      match Route(message)
      case StartCommand =>
        reply := Welcome;
      case HelpCommand =>
        reply := Help;
      case MosfTestCommand =>
        reply := StartMosfTest(chatId);
      case CancelCommand =>
        reply := CancelSession(chatId);
      case AnswerText(_) =>
        reply := HandleUserResponse(chatId, message);
    }
  }
}
