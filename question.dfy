/**
 * A test item: the text shown to the user, the parameter it measures and the
 * score of each answer option.  It is a value: nothing changes it once built.
 */
module Questions {
  import opened Wrappers
  import opened Entries

  /** Answer options, answer to score, in the option map's iteration order; no answer twice. */
  type AnswerTable = s: seq<(string, int)> | DistinctKeys(s) witness []

  datatype Question = Question(questionText: string, parameterName: string, answerValues: AnswerTable)

  /**
   * The constructor.  The options are taken as a copy, so the question
   * answers every lookup exactly as the given map did; a missing (null) map
   * gives a question with no options.
   */
  function NewQuestion(text: string, parameter: string, answers: Option<AnswerTable>): (q: Question)
    ensures q.questionText == text && q.parameterName == parameter
    ensures answers.None? ==> PossibleAnswers(q) == []
    ensures answers.Some? ==> |PossibleAnswers(q)| == |answers.value|
    ensures answers.Some? ==> forall answer :: ValueForAnswer(q, answer) == Get(answers.value, answer)
  {
    Question(text, parameter, if answers.Some? then answers.value else [])
  }

  /** `getPossibleAnswers`: the option labels, one per option, in a fixed order. */
  function PossibleAnswers(q: Question): (labels: seq<string>)
    ensures |labels| == |q.answerValues|
    ensures forall i, j | 0 <= i < j < |labels| :: labels[i] != labels[j]
  {
    Keys(q.answerValues)
  }

  /** `getValueForAnswer`: the score of an option answer, `None` for any other string. */
  function ValueForAnswer(q: Question, answer: string): (r: Option<int>)
    ensures r.Some? <==> answer in PossibleAnswers(q)
    ensures r.Some? ==> exists i | 0 <= i < |q.answerValues| :: q.answerValues[i] == (answer, r.value)
  {
    Get(q.answerValues, answer)
  }

  /** `getAnswerValues`: a copy of the option map. */
  function AnswerValues(q: Question): (m: map<string, int>)
    ensures m.Keys == set answer | answer in PossibleAnswers(q)
    ensures forall answer | answer in m :: ValueForAnswer(q, answer) == Some(m[answer])
  {
    var m := ToMap(q.answerValues);
    assert forall answer :: answer in PossibleAnswers(q) <==> answer in m by {
      forall answer ensures answer in PossibleAnswers(q) <==> answer in m {
        if answer in PossibleAnswers(q) {
          var i :| 0 <= i < |q.answerValues| && PossibleAnswers(q)[i] == answer;
          assert q.answerValues[i].0 == answer;
        }
      }
    }
    m
  }

  /** Every answer offered to the user has the score of its own option. */
  lemma LabelsHaveScores(q: Question)
    ensures forall i | 0 <= i < |q.answerValues| ::
      ValueForAnswer(q, PossibleAnswers(q)[i]) == Some(q.answerValues[i].1)
  {
    forall i | 0 <= i < |q.answerValues|
      ensures ValueForAnswer(q, PossibleAnswers(q)[i]) == Some(q.answerValues[i].1)
    {
      GetAt(q.answerValues, i);
    }
  }
}
