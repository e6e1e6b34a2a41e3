/**
 * A diagnostic test: its name, its ordered questions and its diagnosis rules
 * (range string to diagnosis text, in the rule map's iteration order), and
 * the evaluation of a total score against those rules.
 */
module Tests {
  import opened Wrappers
  import opened Entries
  import opened JavaText
  import opened Questions

  /** The diagnosis given when no rule's range holds the score. */
  const Undetermined: string := "Не удалось определить диагноз"

  /** Diagnosis rules: range string to diagnosis, no range string twice. */
  type RuleTable = s: seq<(string, string)> | DistinctKeys(s) witness []

  /**
   * The exceptions a range string can raise while it is read:
   * `NumberFormatException` from `Integer.parseInt`, and
   * `ArrayIndexOutOfBoundsException` when `split` leaves too few pieces.
   */
  datatype RangeError = NumberFormat | BoundMissing

  datatype RangeCheck = InRange | OutOfRange | Malformed(error: RangeError)

  /** `score <= bound` (or `>=`) once the bound text is parsed. */
  function CompareBound(bound: string, score: int, atMost: bool): RangeCheck {
    match ParseInt(Trim(bound))
    case None => Malformed(NumberFormat)
    case Some(x) => if (if atMost then score <= x else score >= x) then InRange else OutOfRange
  }

  /** The "A-B" branch: both pieces of `split("-")`, trimmed and parsed, bound the score. */
  function DashCheck(score: int, range: string): RangeCheck {
    var parts := Split(range, '-');
    if |parts| == 0 then Malformed(BoundMissing)
    else
      match ParseInt(Trim(parts[0]))
      case None => Malformed(NumberFormat)
      case Some(min) =>
        if |parts| < 2 then Malformed(BoundMissing)
        else
          match ParseInt(Trim(parts[1]))
          case None => Malformed(NumberFormat)
          case Some(max) => if score >= min && score <= max then InRange else OutOfRange
  }

  /**
   * `isScoreInRange`: a range with a dash anywhere is read as "A-B"; otherwise
   * "<=X" and ">=Y"; any other string holds no score.
   */
  function IsScoreInRange(score: int, range: string): (c: RangeCheck)
    ensures !c.OutOfRange? ==> '-' in range || StartsWith(range, "<=") || StartsWith(range, ">=")
  {
    if '-' in range then DashCheck(score, range)
    else if StartsWith(range, "<=") then CompareBound(range[2..], score, true)
    else if StartsWith(range, ">=") then CompareBound(range[2..], score, false)
    else OutOfRange
  }

  /** "A-B" holds exactly the scores from A to B, both included. */
  lemma DashRange(a: string, b: string, lo: int, hi: int, score: int)
    requires '-' !in a && '-' !in b
    requires ParseInt(Trim(a)) == Some(lo) && ParseInt(Trim(b)) == Some(hi)
    ensures IsScoreInRange(score, a + "-" + b) == if lo <= score <= hi then InRange else OutOfRange
  {
    assert b != "";
    SplitTwo(a, '-', b);
  }

  /**
   * "A-B" whose lower bound is not an integer fails to read; with an empty A
   * this covers "-5", which is not read as a negative number.
   */
  lemma DashRangeBadLower(a: string, b: string, score: int)
    requires '-' !in a && '-' !in b && b != ""
    requires ParseInt(Trim(a)).None?
    ensures IsScoreInRange(score, a + "-" + b) == Malformed(NumberFormat)
  {
    SplitTwo(a, '-', b);
  }

  /** "A-B" whose lower bound reads but whose upper bound is not an integer fails to read. */
  lemma DashRangeBadUpper(a: string, b: string, lo: int, score: int)
    requires '-' !in a && '-' !in b && b != ""
    requires ParseInt(Trim(a)) == Some(lo) && ParseInt(Trim(b)).None?
    ensures IsScoreInRange(score, a + "-" + b) == Malformed(NumberFormat)
  {
    SplitTwo(a, '-', b);
  }

  /** A lone dash splits into no pieces at all, so reading the lower bound fails. */
  lemma DashAlone(score: int)
    ensures IsScoreInRange(score, "-") == Malformed(BoundMissing)
  {
    assert "-" == "" + ['-'] + "";
    RawSplitHead("", '-', "");
    assert RawSplit("-", '-') == ["", ""];
    assert DropTrailingEmpty(["", ""]) == DropTrailingEmpty([""]);
  }

  /** "A-" is cut into one piece only, so reading its upper bound fails. */
  lemma DashRangeWithoutUpper(a: string, lo: int, score: int)
    requires '-' !in a && ParseInt(Trim(a)) == Some(lo)
    ensures IsScoreInRange(score, a + "-") == Malformed(BoundMissing)
  {
    var s := a + "-";
    assert s == a + ['-'] + "";
    assert s[|a|] == '-';
    RawSplitHead(a, '-', "");
    assert RawSplit(s, '-') == [a, ""];
    assert DropTrailingEmpty([a, ""]) == DropTrailingEmpty([a]);
    assert a != "";
  }

  /** A dash wins over the "<=" prefix: "<=-X" reads "<=" as the lower bound and fails. */
  lemma NegativeBoundIsMalformed(x: string, score: int)
    ensures IsScoreInRange(score, "<=-" + x) == Malformed(NumberFormat)
  {
    var s := "<=-" + x;
    assert s == "<=" + ['-'] + x;
    assert s[2] == '-';
    SplitFirst("<=", '-', x);
    assert Trim("<=") == "<=";
    assert ParseInt("<=") == None;
  }

  /** "<=X" without a dash holds exactly the scores up to X, and fails to read when X is not an integer. */
  lemma AtMostRange(x: string, score: int)
    requires '-' !in x
    ensures ParseInt(Trim(x)).Some? ==>
      IsScoreInRange(score, "<=" + x) == if score <= ParseInt(Trim(x)).value then InRange else OutOfRange
    ensures ParseInt(Trim(x)).None? ==> IsScoreInRange(score, "<=" + x) == Malformed(NumberFormat)
  {
    var s := "<=" + x;
    assert s[2..] == x;
    assert '-' !in s by {
      assert forall i | 2 <= i < |s| :: s[i] == x[i - 2];
    }
  }

  /** ">=Y" without a dash holds exactly the scores from Y up, and fails to read when Y is not an integer. */
  lemma AtLeastRange(y: string, score: int)
    requires '-' !in y
    ensures ParseInt(Trim(y)).Some? ==>
      IsScoreInRange(score, ">=" + y) == if score >= ParseInt(Trim(y)).value then InRange else OutOfRange
    ensures ParseInt(Trim(y)).None? ==> IsScoreInRange(score, ">=" + y) == Malformed(NumberFormat)
  {
    var s := ">=" + y;
    assert s[2..] == y;
    assert '-' !in s by {
      assert forall i | 2 <= i < |s| :: s[i] == y[i - 2];
    }
    assert !StartsWith(s, "<=");
  }

  /** Reading a one-digit bound. */
  lemma ParseDigit(n: nat)
    requires n < 10
    ensures ParseInt(Trim(['0' + n as char])) == Some(n)
  {
    TrimNoBlanks(['0' + n as char]);
    ParseDecimal(n);
  }

  /** "<=5" holds 5 and not 6. */
  lemma AtMostBoundary()
    ensures IsScoreInRange(5, "<=5") == InRange && IsScoreInRange(6, "<=5") == OutOfRange
  {
    ParseDigit(5);
    assert "<=5" == "<=" + "5";
    AtMostRange("5", 5);
    AtMostRange("5", 6);
  }

  /** ">=5" holds 5 and not 4. */
  lemma AtLeastBoundary()
    ensures IsScoreInRange(5, ">=5") == InRange && IsScoreInRange(4, ">=5") == OutOfRange
  {
    ParseDigit(5);
    assert ">=5" == ">=" + "5";
    AtLeastRange("5", 5);
    AtLeastRange("5", 4);
  }

  /** "2-2" holds 2 and nothing else. */
  lemma SinglePointRange(score: int)
    ensures IsScoreInRange(score, "2-2") == if score == 2 then InRange else OutOfRange
  {
    ParseDigit(2);
    assert "2-2" == "2" + "-" + "2";
    DashRange("2", "2", 2, 2, score);
  }

  /** `evaluateDiagnosis` as a first-match search over the rules in order. */
  function Diagnose(rules: seq<(string, string)>, score: int): Result<string, RangeError> {
    if rules == [] then Success(Undetermined)
    else
      match IsScoreInRange(score, rules[0].0)
      case InRange => Success(rules[0].1)
      case OutOfRange => Diagnose(rules[1..], score)
      case Malformed(e) => Failure(e)
  }

  /**
   * The diagnosis is the one of the first rule whose range holds the score;
   * ranges that come later are never looked at; a range that fails to read
   * before any match is an error; no match at all gives `Undetermined`.
   */
  lemma {:induction false} DiagnoseFirstMatch(rules: seq<(string, string)>, score: int, i: nat)
    requires i <= |rules|
    requires forall j | 0 <= j < i :: IsScoreInRange(score, rules[j].0) == OutOfRange
    requires i < |rules| ==> IsScoreInRange(score, rules[i].0) != OutOfRange
    ensures Diagnose(rules, score) ==
      if i == |rules| then Success(Undetermined)
      else match IsScoreInRange(score, rules[i].0)
        case Malformed(e) => Failure(e)
        case _ => Success(rules[i].1)
  {
    if i > 0 {
      assert IsScoreInRange(score, rules[0].0) == OutOfRange;
      var tail := rules[1..];
      forall j | 0 <= j < i - 1 ensures IsScoreInRange(score, tail[j].0) == OutOfRange {
        assert tail[j] == rules[j + 1];
      }
      assert i - 1 < |tail| ==> tail[i - 1] == rules[i];
      DiagnoseFirstMatch(tail, score, i - 1);
    }
  }

  /** Rules added after a matching or unreadable one change nothing. */
  lemma {:induction false} DiagnoseIgnoresLater(rules: seq<(string, string)>, more: seq<(string, string)>, score: int, i: nat)
    requires i < |rules|
    requires forall j | 0 <= j < i :: IsScoreInRange(score, rules[j].0) == OutOfRange
    requires IsScoreInRange(score, rules[i].0) != OutOfRange
    ensures Diagnose(rules + more, score) == Diagnose(rules, score)
  {
    var all := rules + more;
    forall j | 0 <= j < i ensures IsScoreInRange(score, all[j].0) == OutOfRange {
      assert all[j] == rules[j];
    }
    assert all[i] == rules[i];
    DiagnoseFirstMatch(all, score, i);
    DiagnoseFirstMatch(rules, score, i);
  }

  /** Overlapping ranges are settled by order: 4 lies in "0-5" and in "3-10" and gets the first. */
  lemma OverlapGoesToFirst()
    ensures Diagnose([("0-5", "A"), ("3-10", "B")], 4) == Success("A")
  {
    ParseDigit(0);
    ParseDigit(5);
    assert "0-5" == "0" + "-" + "5";
    DashRange("0", "5", 0, 5, 4);
    var rules := [("0-5", "A"), ("3-10", "B")];
    assert rules[0].0 == "0-5";
  }

  class Test {
    const testName: string
    var questions: seq<Question>
    var diagnosisRules: RuleTable

    /** A missing (null) question list or rule map becomes an empty one. */
    constructor (name: string, questions: Option<seq<Question>>, rules: Option<RuleTable>)
      ensures testName == name
      ensures this.questions == if questions.Some? then questions.value else []
      ensures diagnosisRules == if rules.Some? then rules.value else []
    {
      testName := name;
      this.questions := if questions.Some? then questions.value else [];
      diagnosisRules := if rules.Some? then rules.value else [];
    }

    /** `getQuestions`: the questions in presentation order. */
    function GetQuestions(): seq<Question>
      reads this
    {
      questions
    }

    /** `addQuestion`: the new question goes last, the others keep their places. */
    method AddQuestion(q: Question)
      modifies this`questions
      ensures GetQuestions() == old(GetQuestions()) + [q]
    {
      questions := questions + [q];
    }

    /**
     * `addDiagnosisRule`: a known range keeps its place and takes the new
     * diagnosis; a new range is added last.
     */
    method AddDiagnosisRule(range: string, diagnosis: string)
      modifies this`diagnosisRules
      ensures diagnosisRules == Put(old(diagnosisRules), range, diagnosis)
      ensures Get(diagnosisRules, range) == Some(diagnosis)
      ensures forall other | other != range :: Get(diagnosisRules, other) == Get(old(diagnosisRules), other)
      ensures |diagnosisRules| == |old(diagnosisRules)| + if range in Keys(old(diagnosisRules)) then 0 else 1
    {
      forall other ensures Get(Put(diagnosisRules, range, diagnosis), other) ==
        if other == range then Some(diagnosis) else Get(diagnosisRules, other)
      {
        PutGet(diagnosisRules, range, diagnosis, other);
      }
      diagnosisRules := Put(diagnosisRules, range, diagnosis);
    }

    /** `evaluateDiagnosis`: walks the rules in order and stops at the first decisive one. */
    method EvaluateDiagnosis(score: int) returns (r: Result<string, RangeError>)
      ensures r == Diagnose(diagnosisRules, score)
    {
      var i := 0;
      while i < |diagnosisRules|
        invariant 0 <= i <= |diagnosisRules|
        invariant Diagnose(diagnosisRules[i..], score) == Diagnose(diagnosisRules, score)
      {
        var rule := diagnosisRules[i];
        match IsScoreInRange(score, rule.0)
        case InRange =>
          return Success(rule.1);
        case Malformed(e) =>
          return Failure(e);
        case OutOfRange =>
          assert diagnosisRules[i..][1..] == diagnosisRules[i + 1..];
        i := i + 1;
      }
      r := Success(Undetermined);
    }
  }
}
