/**
 * The movement-analysis controller of app/games/movement/page.tsx: each question's
 * options are shuffled in place by Fisher–Yates when the question is shown; a correct
 * choice is worth 20 points.
 *
 * `Math.random` is replaced by draws supplied by the caller: `draws[i]` is the index j
 * the loop swaps with position i, which the source takes uniformly from [0, i].
 */
module MovementGame {
  import opened Options
  import opened SessionStore

  datatype Choice = Choice(text: string, correct: bool)

  datatype Question = Question(id: int, title: string, description: string, imageUrl: string, options: seq<Choice>)

  const PointsPerCorrect := 20

  /** Draws usable for shuffling `n` options: one per position, each within [0, i]. */
  predicate Draws(draws: seq<int>, n: int)
  {
    |draws| == n && forall i :: 0 < i < n ==> 0 <= draws[i] <= i
  }

  function Swap<T>(s: seq<T>, i: int, j: int): (r: seq<T>)
    requires 0 <= i < |s| && 0 <= j < |s|
    ensures |r| == |s| && r[i] == s[j] && r[j] == s[i]
    ensures forall k :: 0 <= k < |s| && k != i && k != j ==> r[k] == s[k]
  {
    s[i := s[j]][j := s[i]]
  }

  lemma SwapPermutes<T>(s: seq<T>, i: int, j: int)
    requires 0 <= i < |s| && 0 <= j < |s|
    ensures multiset(Swap(s, i, j)) == multiset(s)
  {
  }

  /** The loop's remaining steps from position i down to 1. */
  function ShuffleFrom<T>(s: seq<T>, draws: seq<int>, i: int): (r: seq<T>)
    requires Draws(draws, |s|) && i < |s|
    ensures |r| == |s|
    decreases i
  {
    if i <= 0 then s else ShuffleFrom(Swap(s, i, draws[i]), draws, i - 1)
  }

  /** The whole loop: positions |s| − 1 down to 1. */
  function Shuffled<T>(s: seq<T>, draws: seq<int>): (r: seq<T>)
    requires Draws(draws, |s|)
    ensures |r| == |s| && multiset(r) == multiset(s)
  {
    ShufflePermutes(s, draws, |s| - 1);
    ShuffleFrom(s, draws, |s| - 1)
  }

  /** Every step is a swap, so the loop yields a permutation: same length, same multiset. */
  lemma {:induction false} ShufflePermutes<T>(s: seq<T>, draws: seq<int>, i: int)
    requires Draws(draws, |s|) && i < |s|
    ensures multiset(ShuffleFrom(s, draws, i)) == multiset(s)
    decreases i
  {
    if i > 0 {
      SwapPermutes(s, i, draws[i]);
      ShufflePermutes(Swap(s, i, draws[i]), draws, i - 1);
    }
  }

  /** Once step i is done, positions i and above are never touched again. */
  lemma {:induction false} ShuffleKeepsSettled<T>(s: seq<T>, draws: seq<int>, i: int, k: int)
    requires Draws(draws, |s|) && 0 <= i < k < |s|
    ensures ShuffleFrom(s, draws, i)[k] == s[k]
    decreases i
  {
    if i > 0 {
      var t := Swap(s, i, draws[i]);
      ShuffleKeepsSettled(t, draws, i - 1, k);
      assert t[k] == s[k];
    }
  }

  /** `[...options]`: a fresh array holding a copy of the options. */
  method CopyToArray<T>(s: seq<T>, init: T) returns (a: array<T>)
    ensures fresh(a) && a[..] == s
  {
    a := new T[|s|](_ => init);
    var k := 0;
    while k < |s|
      invariant 0 <= k <= |s| && a[..k] == s[..k]
    {
      a[k] := s[k];
      k := k + 1;
    }
  }

  /** The option-shuffling loop of the effect at page.tsx:28-36, on a copy of the options. */
  method ShuffleOptions(options: seq<Choice>, draws: seq<int>) returns (shuffled: seq<Choice>)
    requires Draws(draws, |options|)
    ensures shuffled == Shuffled(options, draws)
    ensures |shuffled| == |options| && multiset(shuffled) == multiset(options)
  {
    if |options| == 0 {
      return options;
    }
    var a := CopyToArray(options, options[0]);
    var i := a.Length - 1;
    while i > 0
      invariant -1 <= i < a.Length
      invariant ShuffleFrom(a[..], draws, i) == Shuffled(options, draws)
    {
      var j := draws[i];
      ghost var before := a[..];
      a[i], a[j] := a[j], a[i];
      assert a[..] == Swap(before, i, j);
      i := i - 1;
    }
    shuffled := a[..];
    ShufflePermutes(options, draws, |options| - 1);
  }

  class Session {
    const questions: seq<Question>

    var currentQuestion: int
    var selectedAnswer: Option<int>
    var showFeedback: bool
    var score: int
    var shuffledOptions: seq<Choice>
    /** How many questions of this run were answered correctly. */
    ghost var correctAnswers: nat

    /** The "completed" screen (page.tsx:77) is shown. */
    predicate Completed()
      reads this
    {
      currentQuestion >= |questions|
    }

    ghost predicate Valid()
      reads this
    {
      |questions| > 0
      && 0 <= currentQuestion < |questions|
      && multiset(shuffledOptions) == multiset(questions[currentQuestion].options)
      && |shuffledOptions| == |questions[currentQuestion].options|
      && (showFeedback <==> selectedAnswer.Some?)
      && score == PointsPerCorrect * correctAnswers
      && correctAnswers <= currentQuestion + (if showFeedback then 1 else 0)
    }

    /** Mounting: the first question, its options shuffled by the effect. */
    constructor (questions: seq<Question>, draws: seq<int>)
      requires |questions| > 0 && Draws(draws, |questions[0].options|)
      ensures this.questions == questions && Valid()
      ensures currentQuestion == 0 && selectedAnswer.None? && !showFeedback && score == 0
      ensures shuffledOptions == Shuffled(questions[0].options, draws)
    {
      var first := ShuffleOptions(questions[0].options, draws);
      this.questions := questions;
      shuffledOptions := first;
      currentQuestion, selectedAnswer, showFeedback, score := 0, None, false, 0;
      correctAnswers := 0;
    }

    /**
     * handleAnswer(index): ignored while feedback is shown; otherwise the chosen
     * shuffled option's flag decides: 20 points and a streak step, or a streak reset.
     * There is one button per shuffled option.
     */
    method HandleAnswer(index: int, store: GameStore)
      requires Valid() && store.Valid() && 0 <= index < |shuffledOptions|
      modifies this, store
      ensures Valid() && store.Valid()
      ensures currentQuestion == old(currentQuestion) && shuffledOptions == old(shuffledOptions)
      ensures old(showFeedback) ==>
        selectedAnswer == old(selectedAnswer) && showFeedback && score == old(score)
        && store.State() == old(store.State())
      ensures !old(showFeedback) ==> selectedAnswer == Some(index) && showFeedback
      ensures !old(showFeedback) && shuffledOptions[index].correct ==>
        score == old(score) + PointsPerCorrect
        && store.State() == StreakIncremented(ScoreAdded(old(store.State()), PointsPerCorrect, Movement))
      ensures !old(showFeedback) && !shuffledOptions[index].correct ==>
        score == old(score) && store.State() == StreakReset(old(store.State()))
    {
      if showFeedback {
        return;
      }
      selectedAnswer := Some(index);
      showFeedback := true;
      var isCorrect := shuffledOptions[index].correct;
      if isCorrect {
        score := score + PointsPerCorrect;
        correctAnswers := correctAnswers + 1;
        store.AddScore(PointsPerCorrect, Movement);
        store.IncrementStreak();
      } else {
        store.ResetStreak();
      }
    }

    /** nextQuestion: advances unless on the last question; the new question's options are then shuffled. */
    method NextQuestion(draws: seq<int>)
      requires Valid()
      requires currentQuestion < |questions| - 1 ==> Draws(draws, |questions[currentQuestion + 1].options|)
      modifies this
      ensures Valid()
      ensures score == old(score)
      ensures old(currentQuestion) < |questions| - 1 ==>
        currentQuestion == old(currentQuestion) + 1 && selectedAnswer.None? && !showFeedback
        && shuffledOptions == Shuffled(questions[currentQuestion].options, draws)
      ensures old(currentQuestion) == |questions| - 1 ==>
        currentQuestion == old(currentQuestion) && selectedAnswer == old(selectedAnswer)
        && showFeedback == old(showFeedback) && shuffledOptions == old(shuffledOptions)
    {
      if currentQuestion < |questions| - 1 {
        currentQuestion := currentQuestion + 1;
        selectedAnswer := None;
        showFeedback := false;
        shuffledOptions := ShuffleOptions(questions[currentQuestion].options, draws);
      }
    }

    /** reset: first question, score 0; the effect reshuffles only if the question index changed. */
    method Reset(draws: seq<int>)
      requires Valid()
      requires currentQuestion != 0 ==> Draws(draws, |questions[0].options|)
      modifies this
      ensures Valid()
      ensures currentQuestion == 0 && selectedAnswer.None? && !showFeedback && score == 0
      ensures old(currentQuestion) != 0 ==> shuffledOptions == Shuffled(questions[0].options, draws)
      ensures old(currentQuestion) == 0 ==> shuffledOptions == old(shuffledOptions)
    {
      var moved := currentQuestion != 0;
      currentQuestion := 0;
      selectedAnswer := None;
      showFeedback := false;
      score := 0;
      correctAnswers := 0;
      if moved {
        shuffledOptions := ShuffleOptions(questions[0].options, draws);
      }
    }
  }

  /**
   * The session score is a multiple of 20, at most 20 × (currentQuestion + 1); the
   * shown options are a permutation of the question's; the completed screen is never reached.
   */
  lemma ScoreBound(s: Session)
    requires s.Valid()
    ensures s.score % PointsPerCorrect == 0 && 0 <= s.score <= PointsPerCorrect * (s.currentQuestion + 1)
    ensures multiset(s.shuffledOptions) == multiset(s.questions[s.currentQuestion].options)
    ensures !s.Completed()
  {
  }
}
