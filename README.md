# Quiz game core, modelled in Dafny

`Quiz2.py` is a single-window quiz game. Behind its widgets sits a small
state machine on the application object: the question list, the running
`score`, the `question_index` of the question on screen and the
`leaderboard` list. This project models that core:

- `scoring.dfy` (module `Scoring`): the question record, the difficulty table
  of `get_points` and the total a run of answers earns.
- `permutation.dfy` (module `Permutation`): the reordering done by
  `random.shuffle`, given as a permutation of indices, and the proof that it
  loses and duplicates no question.
- `leaderboard.dfy` (module `Leaderboard`): the leaderboard record, the
  fallback used when the leaderboard file is missing or is not valid JSON, and the order in
  which `view_leaderboard` shows the records (Python's `sorted` with
  `reverse=True`, which is stable).
- `quiz.dfy` (module `Quiz`): the fields of `QuizApp` as a value
  (`QuizState`), the transitions `check_answer`, `handle_quiz_completion` and
  `start_quiz` make as pure functions, runs of several answers and their
  lemmas, and the class `QuizApp`, whose methods change the fields in place
  and are proved equal to those functions.

The player's choices come in as parameters: the option selected is a plain
string compared to the question's answer, and the reply of the name dialog is
an `Option<string>` (`None` for a cancelled dialog).

Behaviour of the code that the model keeps, though a reader might not expect it:

- `check_answer` grades the answer and moves on in one step. It never moves
  the index past the last question. On the last question it calls
  `handle_quiz_completion` itself and leaves the index where it is.
- `start_quiz` shuffles the list in place. It does not reset `score` or
  `question_index`, which only `__init__` sets. See "## Findings".
- A record is added only when the name is a non-empty string.
- The Submit button stays on screen after completion. The model lets
  `CheckAnswer` run again on the last question, as the program does. That
  run scores the last question again and may record a second entry.
  `Run` and the lemmas about it use one name-dialog reply for every
  completion in the run; `QuizApp.CheckAnswer` takes a reply per press.

## Model

| member | source | states |
|---|---|---|
| Scoring.GetPoints | Quiz2.py:98-99 | easy gives 1, medium 2, hard 3, any other label 0; never more than 3 |
| Scoring.Award | Quiz2.py:77-78 | one answer earns at most 3 points |
| Scoring.Earned | Quiz2.py:77-78 | the points earned by a sequence of answers are at most 3 per question |
| Permutation.Permute | Quiz2.py:42 | the shuffled list has the same length and the same multiset of questions |
| Permutation.PickPermutation | Quiz2.py:42 | taking every position of the list exactly once, in any order, loses and duplicates nothing |
| Leaderboard.LoadLeaderboard | Quiz2.py:20-26 | a missing file, a file that is not valid JSON or a value that is not a list gives an empty leaderboard; a list is used as it is |
| Leaderboard.SortedView | Quiz2.py:106 | the view is a permutation of the leaderboard with scores non-increasing from first to last |
| Leaderboard.Insert | Quiz2.py:106 | placing one record into a descending view keeps it descending and adds exactly that record |
| Leaderboard.SortedViewStable | Quiz2.py:106 | records with equal scores keep their recorded order in the view |
| Leaderboard.SortedViewOfSorted | Quiz2.py:106 | a leaderboard already in display order is shown unchanged |
| Leaderboard.SortedViewIdempotent | Quiz2.py:106 | sorting the view again gives the same view |
| Leaderboard.StableOrderUnique | Quiz2.py:106 | two descending sequences with the same records of every score, in the same order, are equal |
| Leaderboard.SortedViewIsStableSort | Quiz2.py:106 | any descending order that keeps each score's records in recorded order is exactly the view |
| Leaderboard.ThreeEntryExample | Quiz2.py:106 | Ann 5, Bo 9, Cy 5 are shown as Bo, Ann, Cy |
| Quiz.Complete | Quiz2.py:90-94 | a non-empty name adds exactly one record, at the end, holding the current score; earlier records stay unchanged and in order; no name leaves the leaderboard as it was; nothing else changes |
| Quiz.Answer | Quiz2.py:74-88 | an exact match adds the question's difficulty points and a mismatch adds nothing, so the score never drops and rises by at most 3; before the last question the index moves up by one and the leaderboard is untouched; on the last question the index stays and completion records the updated score; the index stays inside the list; the questions never change |
| Quiz.Start | Quiz2.py:40-42 | the questions are reordered without loss or duplication; score, index and leaderboard are kept as they were |
| Quiz.StartFresh | Quiz2.py:40-42 | as Start, but the quiz begins at the first question with score 0 |
| Quiz.Run | Quiz2.py:74-88 | a sequence of answers, including Submit presses after the last question, never changes the questions |
| Quiz.ExtraSubmitRecordsAgain | Quiz2.py:84-85 | a third Submit on a finished two-question quiz of hard questions grades the last question again and records 9 after 6 |
| Quiz.RunScore | Quiz2.py:74-88 | answers given from the current question on add exactly what they earn; the index moves past each answered question except the last |
| Quiz.RunRecords | Quiz2.py:84-94 | no record is added before the last question is answered; answering it adds the record of the final score when a name is given |
| Quiz.FullRun | Quiz2.py:74-99 | a whole quiz from the first question adds the points of the correctly answered questions, at most 3 per question, ends on the last question and records one entry with the final score |
| Quiz.NoSelectionMatchesNone | Quiz2.py:65-78 | Submit with nothing chosen sends the string "None", which is graded Correct for a hard question whose answer is "None" |
| Quiz.TwoQuestionExample | Quiz2.py:74-88 | answering "4" to an easy question and "Rome" to a hard one whose answer is "Paris" ends with 1 point |
| Quiz.RestartResumesAtLastQuestion | Quiz2.py:40-42 | starting again after a whole quiz keeps the index on the last question and keeps the finished quiz's score |
| Quiz.RestartExceedsQuizMaximum | Quiz2.py:40-42 | two correct runs over two hard questions record 6, then 9, which is more than a two-question quiz can award |
| Quiz.FreshRestartWithinMaximum | Quiz2.py:40-42 | with the reset on start, every quiz records at most 3 points per question |
| Quiz.QuizApp.constructor | Quiz2.py:7-13 | the object starts with the loaded questions, the loaded leaderboard, score 0 and index 0 |
| Quiz.QuizApp.StartQuiz | Quiz2.py:40-42 | the question list is shuffled in place as Start says; only the list changes |
| Quiz.QuizApp.DisplayQuestion | Quiz2.py:58-72 | a question is shown exactly when the index is inside the list, and it is the one at the index; the completion branch is reached only with an empty list |
| Quiz.QuizApp.CheckAnswer | Quiz2.py:74-88 | the fields change as Answer says and the questions do not change; the verdict is Correct exactly on an exact match; the quiz finishes exactly on the last question |
| Quiz.QuizApp.HandleQuizCompletion | Quiz2.py:90-94 | the leaderboard changes as Complete says and nothing else changes |
| Quiz.QuizApp.ViewLeaderboard | Quiz2.py:101-107 | the records shown are the leaderboard's, highest score first, equal scores in recorded order |

## Findings

| source | as written | input that shows it | evidently intended | confidence | as-written member | corrected member |
|---|---|---|---|---|---|---|
| Quiz2.py:40-42 | `start_quiz` only shuffles; `score` and `question_index` keep the values the previous quiz left | two hard questions, both answered correctly; "Back to Menu", "Start Quiz", answer correctly: the second quiz asks one question and records 9 | a new quiz starts at the first question with score 0 | medium; not executed | Quiz.Start, Quiz.RestartExceedsQuizMaximum | Quiz.StartFresh, Quiz.FreshRestartWithinMaximum |

`QuizApp.StartQuiz` keeps the behaviour as written, because the class models
the program. `StartFresh` is the corrected transition, and `FullRun` applies
to every quiz started by it.

## Left out

- The tkinter widgets, frames, radio buttons, `messagebox` and `simpledialog` windows and all label text: the selected option and the dialog reply are parameters instead.
- The one-second `master.after` pause before the next question is shown: it is event-loop timing.
- `load_questions`: reading and parsing the question file is I/O. The loaded list is a parameter of the constructor. A missing or malformed file raises, and that is not modelled. `Question` assumes every record has the four fields question, options, answer and difficulty, all strings (options a list of strings); the program never checks this, and records that break it (a missing difficulty, which raises as soon as that question is shown (Quiz2.py:62), and again at Quiz2.py:78 if a left-over selection matches its answer; a numeric answer, which never equals the selected string) are not modelled.
- `save_leaderboard`: writing the file is I/O. The round trip of saving and loading again is not modelled.
- LoadLeaderboard: takes the outcome of reading the file as a parameter. A list is assumed to hold name/score records; a list holding other values is not modelled. Only a missing file and a JSON syntax error fall back to an empty leaderboard; other read failures (no permission, a directory, bytes that are not UTF-8) raise out of `__init__`, and the model has no case for them, so its constructor always succeeds.
- Quiz.QuizApp.CheckAnswer: requires the index to address a question. With an empty question list the program still shows the Submit button, and pressing it raises because no option variable was ever created; that crash is what the requirement stands for, and it is not modelled.
- The randomness of `random.shuffle`: the permutation is supplied by the caller. Only that it is a permutation is proved, not that every order is equally likely.
- The `StringVar` set to `None` before a choice is made: the variable holds the string "None" until an option is chosen; the model treats it like any other selected string, so it matches only an answer that is literally "None".
- `create_main_menu`, `create_quiz_widgets` and `switch_frame`: they only build and swap frames. So the quiz widgets that a second `start_quiz` creates again are not modelled.
