/** Scoring of quiz answers: the difficulty table of `QuizApp.get_points` and
    the total earned over a run of answers. */
module Scoring {

  /** One record of the question file: the prompt, the options offered, the
      expected answer and a free-form difficulty label. */
  datatype Question = Question(text: string, options: seq<string>, answer: string, difficulty: string)

  /** Points for a correct answer: a lookup in the table easy/medium/hard with
      a default of 0 for any label the table does not hold. */
  function GetPoints(difficulty: string): (p: nat)
    ensures p <= 3
    ensures p == 1 <==> difficulty == "easy"
    ensures p == 2 <==> difficulty == "medium"
    ensures p == 3 <==> difficulty == "hard"
    ensures p == 0 <==> difficulty !in {"easy", "medium", "hard"}
  {
    var table := map["easy" := 1, "medium" := 2, "hard" := 3];
    if difficulty in table then table[difficulty] else 0
  }

  /** Points that answering `q` with `selected` earns. */
  function Award(q: Question, selected: string): (p: nat)
    ensures p <= 3
  {
    if selected == q.answer then GetPoints(q.difficulty) else 0
  }

  /** Total earned when `answers[i]` is given to `qs[i]`, for every i. */
  function Earned(qs: seq<Question>, answers: seq<string>): (total: nat)
    requires |qs| == |answers|
    ensures total <= 3 * |qs|
  {
    if qs == [] then 0
    else Award(qs[0], answers[0]) + Earned(qs[1..], answers[1..])
  }
}
