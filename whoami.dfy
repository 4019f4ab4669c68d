/**
 * The "Who am I?" controller of app/games/whoami/page.tsx: hints revealed one at a time,
 * a per-question budget that hints and wrong guesses reduce, and three strikes before
 * the answer is shown.
 *
 * Each handler reads the state as it was before the handler ran, as the page's event
 * handlers do (they close over the values of the render that installed them).
 */
module WhoAmIGame {
  import opened SessionStore
  import TextNormalizer

  datatype Category = Joint | Muscle | Bone

  datatype Question = Question(answer: string, hints: seq<string>, category: Category)

  const QuestionBudget := 100
  const HintCost := 15
  const HintFloor := 10
  const WrongCost := 10

  /** The question bank this controller can use: non-empty, every question with a hint to show first. */
  predicate WellFormedBank(questions: seq<Question>)
  {
    |questions| > 0 && forall q :: q in questions ==> |q.hints| >= 1
  }

  function Max(a: int, b: int): int
  {
    if a >= b then a else b
  }

  class Session {
    const questions: seq<Question>
    const tables: TextNormalizer.UnicodeTables

    var currentQuestion: int
    var revealedHints: int
    var guess: string
    var showAnswer: bool
    var isCorrect: bool
    var score: int
    var questionScore: int
    var attempts: int

    /** `question.hints.length`: how many hints the current question has. */
    function MaxHints(): (n: int)
      reads this
      requires 0 <= currentQuestion < |questions|
      ensures WellFormedBank(questions) ==> n >= 1
    {
      |questions[currentQuestion].hints|
    }

    /** The per-question fields as a question starts. */
    predicate QuestionStart()
      reads this
    {
      revealedHints == 1 && guess == "" && !showAnswer && !isCorrect
      && questionScore == QuestionBudget && attempts == 0
    }

    /** The "completed" screen (page.tsx:106) is shown. */
    predicate Completed()
      reads this
    {
      currentQuestion >= |questions|
    }

    ghost predicate Valid()
      reads this
    {
      WellFormedBank(questions)
      && 0 <= currentQuestion < |questions|
      && 1 <= revealedHints <= MaxHints()
      && 0 <= questionScore <= QuestionBudget
      && 0 <= attempts
      && (!showAnswer ==> attempts <= 2)
      && (showAnswer && !isCorrect ==> attempts >= 3)
      && (isCorrect ==> showAnswer)
      && score >= 0
    }

    constructor (questions: seq<Question>, tables: TextNormalizer.UnicodeTables)
      requires WellFormedBank(questions)
      ensures this.questions == questions && this.tables == tables
      ensures Valid() && currentQuestion == 0 && score == 0 && QuestionStart()
    {
      this.questions, this.tables := questions, tables;
      currentQuestion, revealedHints, guess := 0, 1, "";
      showAnswer, isCorrect := false, false;
      score, questionScore, attempts := 0, QuestionBudget, 0;
    }

    /** The text field's change handler. */
    method TypeGuess(text: string)
      requires Valid()
      modifies this
      ensures Valid()
      ensures guess == text
      ensures currentQuestion == old(currentQuestion) && revealedHints == old(revealedHints)
      ensures showAnswer == old(showAnswer) && isCorrect == old(isCorrect) && score == old(score)
      ensures questionScore == old(questionScore) && attempts == old(attempts)
    {
      guess := text;
    }

    /** revealHint: one more hint, for 15 points, but never below 10. */
    method RevealHint()
      requires Valid()
      modifies this
      ensures Valid()
      ensures old(revealedHints) < MaxHints() ==>
        revealedHints == old(revealedHints) + 1 && questionScore == Max(HintFloor, old(questionScore) - HintCost)
      ensures old(revealedHints) >= MaxHints() ==>
        revealedHints == old(revealedHints) && questionScore == old(questionScore)
      ensures old(questionScore) < HintFloor && old(revealedHints) < MaxHints() ==> questionScore == HintFloor
      ensures currentQuestion == old(currentQuestion) && guess == old(guess) && showAnswer == old(showAnswer)
      ensures isCorrect == old(isCorrect) && score == old(score) && attempts == old(attempts)
    {
      if revealedHints < MaxHints() {
        revealedHints := revealedHints + 1;
        questionScore := Max(HintFloor, questionScore - HintCost);
      }
    }

    /**
     * checkAnswer. A correct guess earns the current budget; a wrong one costs 10 points
     * (never below 0) and one attempt, and the third wrong one shows the answer and ends
     * the streak. Nothing checks that the guess is non-empty: the Enter key (page.tsx:252)
     * calls this handler although the button (page.tsx:263) is disabled for a blank guess.
     */
    method CheckAnswer(store: GameStore)
      requires Valid() && store.Valid()
      modifies this, store
      ensures Valid() && store.Valid()
      ensures currentQuestion == old(currentQuestion) && revealedHints == old(revealedHints) && guess == old(guess)
      ensures TextNormalizer.IsValidAnswer(tables, old(guess), questions[currentQuestion].answer) ==>
        score == old(score) + old(questionScore)
        && questionScore == old(questionScore) && attempts == old(attempts)
        && showAnswer && isCorrect
        && store.State() == StreakIncremented(ScoreAdded(old(store.State()), old(questionScore), WhoAmI))
      ensures !TextNormalizer.IsValidAnswer(tables, old(guess), questions[currentQuestion].answer) ==>
        score == old(score)
        && questionScore == Max(0, old(questionScore) - WrongCost) && attempts == old(attempts) + 1
        && (old(attempts) >= 2 ==> showAnswer && !isCorrect && store.State() == StreakReset(old(store.State())))
        && (old(attempts) < 2 ==> showAnswer == old(showAnswer) && isCorrect == old(isCorrect)
                                  && store.State() == old(store.State()))
    {
      var correct := TextNormalizer.IsValidAnswer(tables, guess, questions[currentQuestion].answer);
      if correct {
        Award(store);
      } else {
        Strike(store);
      }
    }

    /** The correct branch of checkAnswer. */
    method Award(store: GameStore)
      requires Valid() && store.Valid()
      modifies this, store
      ensures Valid() && store.Valid()
      ensures currentQuestion == old(currentQuestion) && revealedHints == old(revealedHints) && guess == old(guess)
      ensures score == old(score) + old(questionScore)
      ensures questionScore == old(questionScore) && attempts == old(attempts) && showAnswer && isCorrect
      ensures store.State() == StreakIncremented(ScoreAdded(old(store.State()), old(questionScore), WhoAmI))
    {
      score := score + questionScore;
      store.AddScore(questionScore, WhoAmI);
      store.IncrementStreak();
      showAnswer := true;
      isCorrect := true;
    }

    /** The wrong branch of checkAnswer: the test of attempts sees the count from before this guess. */
    method Strike(store: GameStore)
      requires Valid() && store.Valid()
      modifies this, store
      ensures Valid() && store.Valid()
      ensures currentQuestion == old(currentQuestion) && revealedHints == old(revealedHints) && guess == old(guess)
      ensures score == old(score)
      ensures questionScore == Max(0, old(questionScore) - WrongCost) && attempts == old(attempts) + 1
      ensures old(attempts) >= 2 ==> showAnswer && !isCorrect && store.State() == StreakReset(old(store.State()))
      ensures old(attempts) < 2 ==>
        showAnswer == old(showAnswer) && isCorrect == old(isCorrect) && store.State() == old(store.State())
    {
      var strikes := attempts;
      questionScore := Max(0, questionScore - WrongCost);
      attempts := attempts + 1;
      if strikes >= 2 {
        store.ResetStreak();
        showAnswer := true;
        isCorrect := false;
      }
    }

    /** nextQuestion: advances, with a fresh budget, unless this is the last question. */
    method NextQuestion()
      requires Valid()
      modifies this
      ensures Valid()
      ensures score == old(score)
      ensures old(currentQuestion) < |questions| - 1 ==> currentQuestion == old(currentQuestion) + 1 && QuestionStart()
      ensures old(currentQuestion) == |questions| - 1 ==>
        currentQuestion == old(currentQuestion) && revealedHints == old(revealedHints) && guess == old(guess)
        && showAnswer == old(showAnswer) && isCorrect == old(isCorrect)
        && questionScore == old(questionScore) && attempts == old(attempts)
    {
      if currentQuestion < |questions| - 1 {
        currentQuestion := currentQuestion + 1;
        revealedHints := 1;
        guess := "";
        showAnswer := false;
        isCorrect := false;
        questionScore := QuestionBudget;
        attempts := 0;
      }
    }

    /** reset: back to the first question, score 0. */
    method Reset()
      requires Valid()
      modifies this
      ensures Valid()
      ensures currentQuestion == 0 && score == 0 && QuestionStart()
    {
      currentQuestion := 0;
      revealedHints := 1;
      guess := "";
      showAnswer := false;
      isCorrect := false;
      score := 0;
      questionScore := QuestionBudget;
      attempts := 0;
    }
  }

  /** The completed screen is never reached: nextQuestion stops at the last question. */
  lemma NeverCompleted(s: Session)
    requires s.Valid()
    ensures !s.Completed()
  {
  }

  /**
   * One question played through: reveal a hint (100 → 85), a wrong guess (→ 75, one
   * attempt), then a right one, which earns 75 and adds 75 to totalScore.
   */
  method HintWrongRight(s: Session, store: GameStore, wrong: string, right: string)
    requires s.Valid() && store.Valid() && s.QuestionStart() && s.MaxHints() >= 2
    requires !TextNormalizer.IsValidAnswer(s.tables, wrong, s.questions[s.currentQuestion].answer)
    requires TextNormalizer.IsValidAnswer(s.tables, right, s.questions[s.currentQuestion].answer)
    modifies s, store
    ensures s.score == old(s.score) + 75 && s.attempts == 1 && s.isCorrect
    ensures store.totalScore == old(store.totalScore) + 75
    ensures store.currentStreak == old(store.currentStreak) + 1
  {
    s.RevealHint();
    assert s.questionScore == 85;
    s.TypeGuess(wrong);
    s.CheckAnswer(store);
    assert s.questionScore == 75 && s.attempts == 1;
    s.TypeGuess(right);
    s.CheckAnswer(store);
  }
  /** A blank guess sent with the Enter key is a wrong attempt whenever the answer is not blank. */
  method EnterWithEmptyGuess(s: Session, store: GameStore)
    requires s.Valid() && store.Valid() && s.guess == ""
    requires TextNormalizer.Normalize(s.tables, s.questions[s.currentQuestion].answer) != ""
    modifies s, store
    ensures s.attempts == old(s.attempts) + 1 && s.score == old(s.score)
  {
    ghost var answer := s.questions[s.currentQuestion].answer;
    TextNormalizer.EmptyGuess(s.tables, answer);
    assert !TextNormalizer.IsValidAnswer(s.tables, s.guess, answer);
    s.CheckAnswer(store);
  }
}
