/**
 * The lever-classification controller of app/games/levers/page.tsx: pick a difficulty,
 * then one answer per question, 10 points for each correct class.
 */
module LeversGame {
  import opened Options
  import opened SessionStore

  datatype Difficulty = Easy | Medium | Hard

  /** The lever classes "1", "2" and "3". */
  datatype LeverClass = First | Second | Third

  datatype Question = Question(id: int, prompt: string, answer: string, kind: LeverClass)

  /** The question bank, one list per difficulty. */
  datatype Bank = Bank(easy: seq<Question>, medium: seq<Question>, hard: seq<Question>)

  const PointsPerCorrect := 10

  function QuestionsFor(bank: Bank, d: Difficulty): seq<Question>
  {
    match d
    case Easy => bank.easy
    case Medium => bank.medium
    case Hard => bank.hard
  }

  predicate WellFormedBank(bank: Bank)
  {
    |bank.easy| > 0 && |bank.medium| > 0 && |bank.hard| > 0
  }

  class Session {
    const bank: Bank

    var difficulty: Option<Difficulty>
    var currentQuestion: int
    var selectedAnswer: Option<LeverClass>
    var showFeedback: bool
    var score: int
    /** How many questions of this run were answered correctly. */
    ghost var correctAnswers: nat

    /** `difficulty ? leversData[difficulty] : []`. */
    function Questions(): (qs: seq<Question>)
      reads this
      ensures difficulty.None? ==> qs == []
      ensures WellFormedBank(bank) && difficulty.Some? ==> |qs| > 0
    {
      if difficulty.None? then [] else QuestionsFor(bank, difficulty.value)
    }

    /** The "completed" screen (page.tsx:130) is shown. */
    predicate Completed()
      reads this
    {
      difficulty.Some? && currentQuestion >= |Questions()|
    }

    ghost predicate Valid()
      reads this
    {
      WellFormedBank(bank)
      && 0 <= currentQuestion
      && (difficulty.Some? ==> currentQuestion < |Questions()|)
      && (difficulty.None? ==> currentQuestion == 0 && correctAnswers == 0)
      && (showFeedback <==> selectedAnswer.Some?)
      && score == PointsPerCorrect * correctAnswers
      && correctAnswers <= currentQuestion + (if showFeedback then 1 else 0)
    }

    constructor (bank: Bank)
      requires WellFormedBank(bank)
      ensures this.bank == bank && Valid()
      ensures difficulty.None? && currentQuestion == 0 && selectedAnswer.None? && !showFeedback && score == 0
    {
      this.bank := bank;
      difficulty, currentQuestion, selectedAnswer, showFeedback, score := None, 0, None, false, 0;
      correctAnswers := 0;
    }

    /** A difficulty card's click handler; the cards are shown only while no difficulty is chosen (page.tsx:83). */
    method SelectDifficulty(d: Difficulty)
      requires Valid() && difficulty.None?
      modifies this
      ensures Valid()
      ensures difficulty == Some(d)
      ensures currentQuestion == old(currentQuestion) && selectedAnswer == old(selectedAnswer)
      ensures showFeedback == old(showFeedback) && score == old(score)
    {
      difficulty := Some(d);
    }

    /**
     * handleAnswer: ignored while feedback is shown; otherwise records the choice, and
     * scores 10 points and a streak step when it is the question's class.
     * The answer buttons exist only on the question screen, once a difficulty is chosen.
     */
    method HandleAnswer(kind: LeverClass, store: GameStore)
      requires Valid() && store.Valid() && difficulty.Some?
      modifies this, store
      ensures Valid() && store.Valid()
      ensures difficulty == old(difficulty) && currentQuestion == old(currentQuestion)
      ensures old(showFeedback) ==>
        selectedAnswer == old(selectedAnswer) && showFeedback && score == old(score)
        && store.State() == old(store.State())
      ensures !old(showFeedback) ==> selectedAnswer == Some(kind) && showFeedback
      ensures !old(showFeedback) && kind == Questions()[currentQuestion].kind ==>
        score == old(score) + PointsPerCorrect
        && store.State() == StreakIncremented(ScoreAdded(old(store.State()), PointsPerCorrect, Levers))
      ensures !old(showFeedback) && kind != Questions()[currentQuestion].kind ==>
        score == old(score) && store.State() == StreakReset(old(store.State()))
    {
      if showFeedback {
        return;
      }
      selectedAnswer := Some(kind);
      showFeedback := true;
      var isCorrect := kind == Questions()[currentQuestion].kind;
      if isCorrect {
        score := score + PointsPerCorrect;
        correctAnswers := correctAnswers + 1;
        store.AddScore(PointsPerCorrect, Levers);
        store.IncrementStreak();
      } else {
        store.ResetStreak();
      }
    }

    /** nextQuestion: advances and clears the answer unless this is the last question. */
    method NextQuestion()
      requires Valid()
      modifies this
      ensures Valid()
      ensures difficulty == old(difficulty) && score == old(score)
      ensures old(currentQuestion) < |Questions()| - 1 ==>
        currentQuestion == old(currentQuestion) + 1 && selectedAnswer.None? && !showFeedback
      ensures old(currentQuestion) >= |Questions()| - 1 ==>
        currentQuestion == old(currentQuestion) && selectedAnswer == old(selectedAnswer)
        && showFeedback == old(showFeedback)
    {
      if currentQuestion < |Questions()| - 1 {
        currentQuestion := currentQuestion + 1;
        selectedAnswer := None;
        showFeedback := false;
      }
    }

    /** reset ("Voltar" on the question screen, "Voltar ao Menu" on the completed one): back to choosing a difficulty. */
    method Reset()
      requires Valid()
      modifies this
      ensures Valid()
      ensures difficulty.None? && currentQuestion == 0 && selectedAnswer.None? && !showFeedback && score == 0
    {
      difficulty := None;
      currentQuestion := 0;
      selectedAnswer := None;
      showFeedback := false;
      score := 0;
      correctAnswers := 0;
    }

    /** "Jogar Novamente" on the completed screen: the same difficulty from the first question. */
    method Replay()
      requires Valid()
      modifies this
      ensures Valid()
      ensures difficulty == old(difficulty)
      ensures currentQuestion == 0 && selectedAnswer.None? && !showFeedback && score == 0
    {
      currentQuestion := 0;
      selectedAnswer := None;
      showFeedback := false;
      score := 0;
      correctAnswers := 0;
    }
  }

  /**
   * The session score is 10 for each correct answer, a multiple of 10 and at most
   * 10 × (currentQuestion + 1); and the completed screen is never reached.
   */
  lemma ScoreBound(s: Session)
    requires s.Valid()
    ensures s.score % PointsPerCorrect == 0 && 0 <= s.score <= PointsPerCorrect * (s.currentQuestion + 1)
    ensures !s.Completed()
  {
  }
}
