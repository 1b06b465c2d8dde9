/** The quiz itself: the state `QuizApp` keeps between button presses, the
    transitions its callbacks make, and the class that performs them in place. */
module Quiz {
  import opened Scoring
  import opened Permutation
  import opened Leaderboard

  datatype Option<T> = None | Some(value: T)

  /** The verdict shown after an answer. */
  datatype Response = Correct | Incorrect

  /** The fields of `QuizApp` the quiz logic reads and writes. */
  datatype QuizState = QuizState(questions: seq<Question>, score: nat, questionIndex: nat, leaderboard: seq<Entry>)

  /** A reply from the name dialog counts as a name when it is present and not
      the empty string; a cancelled dialog gives None. */
  predicate IsName(reply: Option<string>)
  {
    reply.Some? && reply.value != ""
  }

  /** The records completion adds for `reply` at `score`. */
  function NewEntries(reply: Option<string>, score: nat): seq<Entry>
  {
    if IsName(reply) then [Entry(reply.value, score)] else []
  }

  /** Finishing the quiz: record the score under the name the player gave. */
  function Complete(s: QuizState, reply: Option<string>): (r: QuizState)
    ensures r.questions == s.questions && r.score == s.score && r.questionIndex == s.questionIndex
    ensures |r.leaderboard| == |s.leaderboard| + (if IsName(reply) then 1 else 0)
    ensures r.leaderboard[..|s.leaderboard|] == s.leaderboard
    ensures IsName(reply) ==> r.leaderboard[|s.leaderboard|] == Entry(reply.value, s.score)
  {
    s.(leaderboard := s.leaderboard + NewEntries(reply, s.score))
  }

  /** Submitting `selected` for the current question; `reply` is what the name
      dialog returns if this was the last question. */
  function Answer(s: QuizState, selected: string, reply: Option<string>): (r: QuizState)
    requires s.questionIndex < |s.questions|
    ensures r.questions == s.questions
    ensures selected == s.questions[s.questionIndex].answer ==>
              r.score == s.score + GetPoints(s.questions[s.questionIndex].difficulty)
    ensures selected != s.questions[s.questionIndex].answer ==> r.score == s.score
    ensures s.score <= r.score <= s.score + 3
    ensures s.questionIndex < |s.questions| - 1 ==>
              r.questionIndex == s.questionIndex + 1 && r.leaderboard == s.leaderboard
    ensures s.questionIndex == |s.questions| - 1 ==>
              r.questionIndex == s.questionIndex && r.leaderboard == s.leaderboard + NewEntries(reply, r.score)
    ensures r.questionIndex < |s.questions|
  {
    var q := s.questions[s.questionIndex];
    var scored := s.(score := s.score + Award(q, selected));
    if s.questionIndex == |s.questions| - 1 then Complete(scored, reply)
    else scored.(questionIndex := s.questionIndex + 1)
  }

  /** Starting a quiz as the program does it: reorder the questions, keep
      score and position. */
  function Start(s: QuizState, perm: seq<nat>): (r: QuizState)
    requires IsPermutation(perm, |s.questions|)
    ensures multiset(r.questions) == multiset(s.questions)
    ensures |r.questions| == |s.questions|
    ensures r.score == s.score && r.questionIndex == s.questionIndex && r.leaderboard == s.leaderboard
  {
    s.(questions := Permute(s.questions, perm))
  }

  /** Starting a quiz as intended: reorder the questions and begin at the
      first one with no points. */
  function StartFresh(s: QuizState, perm: seq<nat>): (r: QuizState)
    requires IsPermutation(perm, |s.questions|)
    ensures multiset(r.questions) == multiset(s.questions)
    ensures |r.questions| == |s.questions|
    ensures r.score == 0 && r.questionIndex == 0 && r.leaderboard == s.leaderboard
  {
    Start(s, perm).(score := 0, questionIndex := 0)
  }

  /** The state after the answers `answers` are submitted one after another.
      Submitting again after the last question grades that question again. */
  function Run(s: QuizState, answers: seq<string>, reply: Option<string>): (r: QuizState)
    requires answers != [] ==> s.questionIndex < |s.questions|
    ensures r.questions == s.questions
    decreases |answers|
  {
    if answers == [] then s
    else Run(Answer(s, answers[0], reply), answers[1..], reply)
  }

  /** Answering from the current question on adds what those answers earn;
      the index moves past each answered question except the last one. */
  lemma {:induction false} RunScore(s: QuizState, answers: seq<string>, reply: Option<string>)
    requires s.questionIndex + |answers| <= |s.questions|
    ensures Run(s, answers, reply).score ==
              s.score + Earned(s.questions[s.questionIndex..s.questionIndex + |answers|], answers)
    ensures answers != [] ==>
              Run(s, answers, reply).questionIndex ==
                (if s.questionIndex + |answers| < |s.questions| then s.questionIndex + |answers| else |s.questions| - 1)
    decreases |answers|
  {
    var i, n := s.questionIndex, |s.questions|;
    if answers != [] {
      var t := Answer(s, answers[0], reply);
      var qs := s.questions[i..i + |answers|];
      assert Run(s, answers, reply) == Run(t, answers[1..], reply);
      assert Earned(qs, answers) == Award(s.questions[i], answers[0]) + Earned(qs[1..], answers[1..]);
      assert t.score == s.score + Award(s.questions[i], answers[0]);
      if i < n - 1 {
        assert t.questions == s.questions && t.questionIndex == i + 1;
        RunScore(t, answers[1..], reply);
        assert qs[1..] == s.questions[i + 1..i + |answers|];
      } else {
        assert answers[1..] == [] && qs[1..] == [];
      }
    }
  }

  /** Answers before the last question record nothing; answering the last one
      records one entry with the final score when a name is given. */
  lemma {:induction false} RunRecords(s: QuizState, answers: seq<string>, reply: Option<string>)
    requires s.questionIndex + |answers| <= |s.questions|
    ensures s.questionIndex + |answers| < |s.questions| ==> Run(s, answers, reply).leaderboard == s.leaderboard
    ensures s.questionIndex + |answers| == |s.questions| && answers != [] ==>
              Run(s, answers, reply).leaderboard ==
                s.leaderboard + NewEntries(reply, Run(s, answers, reply).score)
    decreases |answers|
  {
    if answers != [] {
      var t := Answer(s, answers[0], reply);
      assert Run(s, answers, reply) == Run(t, answers[1..], reply);
      if s.questionIndex < |s.questions| - 1 {
        RunRecords(t, answers[1..], reply);
      } else {
        assert answers[1..] == [];
      }
    }
  }

  /** A whole quiz, one answer per question from the first: the score grows by
      the points of the correctly answered questions, at most 3 per question,
      and exactly one entry holding the final score is recorded when a name is
      given. */
  lemma FullRun(s: QuizState, answers: seq<string>, reply: Option<string>)
    requires s.questionIndex == 0 && |answers| == |s.questions| > 0
    ensures Run(s, answers, reply).questions == s.questions
    ensures Run(s, answers, reply).score == s.score + Earned(s.questions, answers)
    ensures Run(s, answers, reply).score <= s.score + 3 * |s.questions|
    ensures Run(s, answers, reply).questionIndex == |s.questions| - 1
    ensures Run(s, answers, reply).leaderboard ==
              s.leaderboard + NewEntries(reply, Run(s, answers, reply).score)
  {
    RunScore(s, answers, reply);
    RunRecords(s, answers, reply);
    assert s.questions[0..|answers|] == s.questions;
  }

  /** The two-question example: "4" is right for an easy question, "Rome" is
      wrong for a hard one, so the quiz ends with 1 point. */
  lemma TwoQuestionExample()
    ensures var arithmetic := Question("2+2?", ["3", "4"], "4", "easy");
            var capital := Question("Capital of France?", ["Paris", "Rome"], "Paris", "hard");
            var done := Run(QuizState([arithmetic, capital], 0, 0, []), ["4", "Rome"], Some("Ann"));
            done.score == 1 && done.leaderboard == [Entry("Ann", 1)]
  {
    var arithmetic := Question("2+2?", ["3", "4"], "4", "easy");
    var capital := Question("Capital of France?", ["Paris", "Rome"], "Paris", "hard");
    var s := QuizState([arithmetic, capital], 0, 0, []);
    FullRun(s, ["4", "Rome"], Some("Ann"));
    assert "Rome" != "Paris";
  }

  /** With no option chosen the radio variable holds the string "None", which
      is graded like any other choice: it is right for an answer "None". */
  lemma NoSelectionMatchesNone()
    ensures var odd := Question("?", ["None", "Some"], "None", "hard");
            Answer(QuizState([odd], 0, 0, []), "None", None).score == 3
  {
  }

  /** Going back to the menu after a finished quiz and starting again resumes
      at the last question with the finished quiz's score. */
  lemma RestartResumesAtLastQuestion(s: QuizState, answers: seq<string>, reply: Option<string>, perm: seq<nat>)
    requires s.questionIndex == 0 && |answers| == |s.questions| > 0
    requires IsPermutation(perm, |s.questions|)
    ensures Start(Run(s, answers, reply), perm).questionIndex == |s.questions| - 1
    ensures Start(Run(s, answers, reply), perm).score == s.score + Earned(s.questions, answers)
  {
    FullRun(s, answers, reply);
  }

  /** Two quizzes over two hard questions, both answered correctly each time:
      the second quiz asks one question and records 9 points, more than the
      6 a two-question quiz can award. */
  lemma RestartExceedsQuizMaximum(perm: seq<nat>)
    requires IsPermutation(perm, 2)
    ensures var hard := Question("?", ["a", "b"], "a", "hard");
            var first := Run(QuizState([hard, hard], 0, 0, []), ["a", "a"], Some("Ann"));
            var second := Run(Start(first, perm), ["a"], Some("Ann"));
            second.leaderboard == [Entry("Ann", 6), Entry("Ann", 9)] && 9 > 3 * |second.questions|
  {
    var hard := Question("?", ["a", "b"], "a", "hard");
    var s := QuizState([hard, hard], 0, 0, []);
    FullRun(s, ["a", "a"], Some("Ann"));
    var again := Start(Run(s, ["a", "a"], Some("Ann")), perm);
    assert again.questions == [hard, hard] by {
      assert multiset(again.questions) == multiset{hard, hard};
      assert again.questions[0] in multiset(again.questions);
      assert again.questions[1] in multiset(again.questions);
    }
    RunScore(again, ["a"], Some("Ann"));
    RunRecords(again, ["a"], Some("Ann"));
  }

  /** Pressing Submit once more after a finished quiz over two hard questions
      grades the last question again and records a second, higher entry: 9
      points from a two-question quiz, with no restart. */
  lemma ExtraSubmitRecordsAgain()
    ensures var hard := Question("?", ["a", "b"], "a", "hard");
            var done := Run(QuizState([hard, hard], 0, 0, []), ["a", "a", "a"], Some("Ann"));
            done.score == 9 > 3 * |done.questions| &&
            done.leaderboard == [Entry("Ann", 6), Entry("Ann", 9)]
  {
  }

  /** With the index and score reset on start, every quiz records at most 3
      points per question, whatever came before. */
  lemma FreshRestartWithinMaximum(s: QuizState, perm: seq<nat>, answers: seq<string>, reply: Option<string>)
    requires IsPermutation(perm, |s.questions|)
    requires |answers| == |s.questions| > 0
    ensures Run(StartFresh(s, perm), answers, reply).score <= 3 * |s.questions|
    ensures Run(StartFresh(s, perm), answers, reply).leaderboard ==
              s.leaderboard + NewEntries(reply, Run(StartFresh(s, perm), answers, reply).score)
  {
    FullRun(StartFresh(s, perm), answers, reply);
  }

  /** The quiz-playing part of the application object. */
  class QuizApp {
    var questions: seq<Question>
    var leaderboard: seq<Entry>
    var score: nat
    var questionIndex: nat

    /** The fields as one value. */
    function State(): QuizState
      reads this
    {
      QuizState(questions, score, questionIndex, leaderboard)
    }

    /** The index addresses a question, or is 0 while there are none. */
    predicate Valid()
      reads this
    {
      questionIndex < |questions| || questionIndex == 0
    }

    /** Set up with the loaded questions and the outcome of reading the
        leaderboard file. */
    constructor (loaded: seq<Question>, read: ReadOutcome)
      ensures State() == QuizState(loaded, 0, 0, LoadLeaderboard(read))
      ensures Valid()
    {
      questions := loaded;
      leaderboard := LoadLeaderboard(read);
      score := 0;
      questionIndex := 0;
    }

    /** Shuffle the questions in place, by the permutation `perm`. */
    method StartQuiz(perm: seq<nat>)
      requires Valid()
      requires IsPermutation(perm, |questions|)
      modifies this`questions
      ensures Valid()
      ensures State() == Start(old(State()), perm)
    {
      questions := Permute(questions, perm);
    }

    /** The question to show, or None when the index is past the list. */
    method DisplayQuestion() returns (shown: Option<Question>)
      ensures shown.Some? <==> questionIndex < |questions|
      ensures shown.Some? ==> shown.value == questions[questionIndex]
      ensures Valid() && shown.None? ==> questions == []
    {
      if questionIndex < |questions| {
        shown := Some(questions[questionIndex]);
      } else {
        shown := None;
      }
    }

    /** Grade `selected` against the current question, then move on or, on the
        last question, complete the quiz with the dialog reply `reply`. */
    method CheckAnswer(selected: string, reply: Option<string>) returns (response: Response, finished: bool)
      requires Valid() && questionIndex < |questions|
      modifies this`score, this`questionIndex, this`leaderboard
      ensures Valid()
      ensures State() == Answer(old(State()), selected, reply)
      ensures response == Correct <==> selected == questions[old(questionIndex)].answer
      ensures finished <==> old(questionIndex) == |questions| - 1
    {
      var current := questions[questionIndex];
      if selected == current.answer {
        score := score + GetPoints(current.difficulty);
        response := Correct;
      } else {
        response := Incorrect;
      }
      finished := questionIndex == |questions| - 1;
      if finished {
        HandleQuizCompletion(reply);
      } else {
        questionIndex := questionIndex + 1;
      }
    }

    /** Record the current score under the name from the dialog, if any. */
    method HandleQuizCompletion(reply: Option<string>)
      modifies this`leaderboard
      ensures State() == Complete(old(State()), reply)
    {
      if reply.Some? && reply.value != "" {
        leaderboard := leaderboard + [Entry(reply.value, score)];
      }
    }

    /** The leaderboard in display order: highest score first, ties in the
        order they were recorded. */
    method ViewLeaderboard() returns (view: seq<Entry>)
      ensures multiset(view) == multiset(leaderboard)
      ensures SortedDesc(view)
      ensures forall k :: WithScore(view, k) == WithScore(leaderboard, k)
    {
      view := SortedView(leaderboard);
      forall k ensures WithScore(view, k) == WithScore(leaderboard, k) {
        SortedViewStable(leaderboard, k);
      }
    }
  }
}
