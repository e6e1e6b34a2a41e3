/**
 * One user's run through a test: a cursor over the test's questions and the
 * score recorded for each parameter.  The test itself is shared and is never
 * changed by a session.
 */
module Sessions {
  import opened Wrappers
  import opened Questions
  import opened Tests

  /** `getNextQuestion` on values: the question under the cursor and the cursor moved on by one. */
  function Advance(qs: seq<Question>, cursor: nat): (Option<Question>, nat) {
    if cursor >= |qs| then (None, cursor) else (Some(qs[cursor]), cursor + 1)
  }

  /** `getCurrentQuestion` on values: the question just before the cursor, if any. */
  function CurrentAt(qs: seq<Question>, cursor: nat): Option<Question> {
    if cursor == 0 || cursor > |qs| then None else Some(qs[cursor - 1])
  }

  /** What `k` calls of `getNextQuestion` in a row return, and where they leave the cursor. */
  function AdvanceRun(qs: seq<Question>, cursor: nat, k: nat): (seq<Option<Question>>, nat)
    decreases k
  {
    if k == 0 then ([], cursor)
    else
      var (q, next) := Advance(qs, cursor);
      var (rest, last) := AdvanceRun(qs, next, k - 1);
      ([q] + rest, last)
  }

  function Min(a: int, b: int): int {
    if a <= b then a else b
  }

  /**
   * From a cursor within the test, successive calls hand out the remaining
   * questions in order, then nothing, and the cursor stops at the count.
   */
  lemma {:induction false} AdvanceRunFrom(qs: seq<Question>, cursor: nat, k: nat)
    requires cursor <= |qs|
    ensures |AdvanceRun(qs, cursor, k).0| == k
    ensures AdvanceRun(qs, cursor, k).1 == Min(cursor + k, |qs|)
    ensures forall i | 0 <= i < k ::
              AdvanceRun(qs, cursor, k).0[i] == if cursor + i < |qs| then Some(qs[cursor + i]) else None
    decreases k
  {
    if k > 0 {
      var next := Advance(qs, cursor).1;
      AdvanceRunFrom(qs, next, k - 1);
      var outs := AdvanceRun(qs, cursor, k).0;
      forall i | 1 <= i < k
        ensures outs[i] == if cursor + i < |qs| then Some(qs[cursor + i]) else None
      {
        assert outs[i] == AdvanceRun(qs, next, k - 1).0[i - 1];
      }
    }
  }

  /**
   * A fresh session hands out the questions in declared order, then nothing
   * on every later call; afterwards the current question is the last one
   * handed out and the session is complete once all were.
   */
  lemma AdvanceRunFromStart(qs: seq<Question>, k: nat)
    ensures |AdvanceRun(qs, 0, k).0| == k
    ensures forall i | 0 <= i < k :: AdvanceRun(qs, 0, k).0[i] == if i < |qs| then Some(qs[i]) else None
    ensures AdvanceRun(qs, 0, k).1 >= |qs| <==> k >= |qs|
    ensures CurrentAt(qs, AdvanceRun(qs, 0, k).1) == if k == 0 || qs == [] then None else Some(qs[Min(k, |qs|) - 1])
  {
    AdvanceRunFrom(qs, 0, k);
  }

  /** A key of a non-empty map, fixed once and for all so that sums are well defined. */
  ghost function PickKey(m: map<string, int>): string
    requires m != map[]
  {
    var k :| k in m; k
  }

  /** The sum of the values of a map, in no particular order. */
  ghost function SumValues(m: map<string, int>): int
    decreases |m|
  {
    if m == map[] then 0
    else
      var k := PickKey(m);
      assert (m - {k}).Keys == m.Keys - {k};
      m[k] + SumValues(m - {k})
  }

  /** The sum does not depend on which key is taken out first. */
  lemma {:induction false} SumValuesRemove(m: map<string, int>, k: string)
    requires k in m
    ensures SumValues(m) == m[k] + SumValues(m - {k})
    decreases |m|
  {
    var j := PickKey(m);
    if j != k {
      assert (m - {j}).Keys == m.Keys - {j};
      assert (m - {k}).Keys == m.Keys - {k};
      SumValuesRemove(m - {j}, k);
      SumValuesRemove(m - {k}, j);
      assert m - {j} - {k} == m - {k} - {j};
    }
  }

  /** Recording a score replaces the parameter's earlier score in the total. */
  lemma SumValuesPut(m: map<string, int>, p: string, v: int)
    ensures SumValues(m[p := v]) == SumValues(m) - (if p in m then m[p] else 0) + v
  {
    SumValuesRemove(m[p := v], p);
    if p in m {
      SumValuesRemove(m, p);
      assert m[p := v] - {p} == m - {p};
    } else {
      assert m[p := v] - {p} == m;
    }
  }

  /** A session seen as a value: its cursor and its recorded scores. */
  datatype SessionState = SessionState(cursor: nat, answers: map<string, int>)

  class Session {
    const currentTest: Test
    var collectedAnswers: map<string, int>
    var currentQuestionIndex: nat

    /** The cursor never passes the end of the test. */
    ghost predicate Valid()
      reads this, currentTest
    {
      currentQuestionIndex <= |currentTest.questions|
    }

    ghost function State(): SessionState
      reads this
    {
      SessionState(currentQuestionIndex, collectedAnswers)
    }

    /** A new session: cursor at the first question, nothing recorded. */
    constructor (test: Test)
      ensures currentTest == test
      ensures currentQuestionIndex == 0 && collectedAnswers == map[]
      ensures Valid()
    {
      currentTest := test;
      collectedAnswers := map[];
      currentQuestionIndex := 0;
    }

    /**
     * `getNextQuestion`: the question under the cursor, with the cursor moved
     * on by one; at or past the end, nothing, and the cursor stays.
     */
    method GetNextQuestion() returns (q: Option<Question>)
      modifies this`currentQuestionIndex
      ensures (q, currentQuestionIndex) == Advance(currentTest.questions, old(currentQuestionIndex))
      ensures q.Some? ==> GetCurrentQuestion() == q
      ensures old(Valid()) ==> Valid()
    {
      if currentQuestionIndex >= |currentTest.questions| {
        return None;
      }
      q := Some(currentTest.questions[currentQuestionIndex]);
      currentQuestionIndex := currentQuestionIndex + 1;
    }

    /** `recordAnswer`: the parameter now holds this score; every other parameter keeps its own. */
    method RecordAnswer(parameterName: string, value: int)
      modifies this`collectedAnswers
      ensures collectedAnswers == old(collectedAnswers)[parameterName := value]
      ensures SumValues(collectedAnswers) ==
        SumValues(old(collectedAnswers)) - (if parameterName in old(collectedAnswers) then old(collectedAnswers)[parameterName] else 0) + value
    {
      SumValuesPut(collectedAnswers, parameterName, value);
      collectedAnswers := collectedAnswers[parameterName := value];
    }

    /** `isComplete`: exactly when the next `getNextQuestion` would give null. */
    predicate IsComplete(): (c: bool)
      reads this, currentTest
      ensures c <==> Advance(currentTest.questions, currentQuestionIndex).0.None?
    {
      currentQuestionIndex >= |currentTest.questions|
    }

    /**
     * `getDiagnosisResult`: the total of the recorded scores, evaluated
     * against the test's rules; it does not wait for completion.
     */
    method GetDiagnosisResult() returns (r: Result<string, RangeError>)
      ensures r == Diagnose(currentTest.diagnosisRules, SumValues(collectedAnswers))
    {
      var total := 0;
      var rest := collectedAnswers;
      while rest != map[]
        invariant total + SumValues(rest) == SumValues(collectedAnswers)
        decreases |rest|
      {
        var k :| k in rest;
        SumValuesRemove(rest, k);
        assert (rest - {k}).Keys == rest.Keys - {k};
        total := total + rest[k];
        rest := rest - {k};
      }
      r := currentTest.EvaluateDiagnosis(total);
    }

    /** `getCurrentQuestionNumber`: how many questions have been handed out. */
    function GetCurrentQuestionNumber(): nat
      reads this
    {
      currentQuestionIndex
    }

    function GetTotalQuestions(): nat
      reads currentTest
    {
      |currentTest.questions|
    }

    /**
     * `getCurrentQuestion`: the question numbered `getCurrentQuestionNumber`.
     * Since the cursor never passes the end, it is null only before the
     * first question is handed out; after the last one it stays the last.
     */
    function GetCurrentQuestion(): (q: Option<Question>)
      reads this, currentTest
      ensures q.Some? <==> 1 <= GetCurrentQuestionNumber() <= GetTotalQuestions()
      ensures q.Some? ==> q.value == currentTest.questions[GetCurrentQuestionNumber() - 1]
      ensures Valid() ==> (q.None? <==> GetCurrentQuestionNumber() == 0)
    {
      CurrentAt(currentTest.questions, currentQuestionIndex)
    }

    function GetQuestions(): seq<Question>
      reads currentTest
    {
      currentTest.GetQuestions()
    }
  }
}
