/**
 * The matching controller of app/games/matching/page.tsx: a left column of up to eight
 * pairs from one category, and a right column holding those pairs' right texts in an
 * order the player changes by dragging and shuffling. Checking counts the positions
 * where the two columns agree.
 *
 * Every `sort(() => Math.random() - 0.5)` is replaced by an arbitrary permutation
 * supplied by the caller (an argument with the same multiset of elements).
 */
module MatchingGame {
  import opened Options
  import opened SessionStore

  datatype Category = MuscleAction | MovementMuscle | LeverExample | AnatomyDefinition

  datatype Pair = Pair(id: int, left: string, right: string, category: Category)

  /** A left-column item, `{ id: left-<pair id>, text, correctMatch }`. */
  datatype Item = Item(pairId: int, text: string, correctMatch: string)

  const SetSize := 8
  const PointsPerPair := 10

  function Min(a: int, b: int): int
  {
    if a <= b then a else b
  }

  /** `matchingData.filter(d => d.category === c)`. */
  function InCategory(pairs: seq<Pair>, c: Category): (r: seq<Pair>)
    ensures |r| <= |pairs|
    ensures forall p :: p in r <==> p in pairs && p.category == c
    ensures forall p :: multiset(r)[p] == if p.category == c then multiset(pairs)[p] else 0
  {
    if pairs == [] then []
    else
      assert pairs == [pairs[0]] + pairs[1..];
      if pairs[0].category == c then [pairs[0]] + InCategory(pairs[1..], c)
      else InCategory(pairs[1..], c)
  }

  /** The right texts of some pairs, in their order. */
  function RightTexts(ps: seq<Pair>): (r: seq<string>)
    ensures |r| == |ps| && forall i :: 0 <= i < |ps| ==> r[i] == ps[i].right
  {
    seq(|ps|, i requires 0 <= i < |ps| => ps[i].right)
  }

  /** The expected matches of the left column, in its order. */
  function CorrectMatches(items: seq<Item>): (r: seq<string>)
    ensures |r| == |items| && forall i :: 0 <= i < |items| ==> r[i] == items[i].correctMatch
  {
    seq(|items|, i requires 0 <= i < |items| => items[i].correctMatch)
  }

  /** `shuffledData.slice(0, 8)`. */
  function Dealt(shuffled: seq<Pair>): (r: seq<Pair>)
    ensures |r| == Min(SetSize, |shuffled|)
  {
    shuffled[..Min(SetSize, |shuffled|)]
  }

  /** `.map(d => ({ id: left-<id>, text: d.left, correctMatch: d.right }))` over the dealt pairs. */
  function LeftColumn(shuffled: seq<Pair>): (r: seq<Item>)
    ensures |r| == Min(SetSize, |shuffled|)
    ensures CorrectMatches(r) == RightTexts(Dealt(shuffled))
    ensures forall i :: 0 <= i < |r| ==> r[i].text == shuffled[i].left && r[i].pairId == shuffled[i].id
  {
    var dealt := Dealt(shuffled);
    seq(|dealt|, i requires 0 <= i < |dealt| => Item(dealt[i].id, dealt[i].left, dealt[i].right))
  }

  /** `Array.prototype.indexOf`: the first position holding `x`, or -1. */
  function IndexOf(s: seq<string>, x: string): (r: int)
    ensures -1 <= r < |s|
    ensures r == -1 <==> x !in s
    ensures r >= 0 ==> s[r] == x && x !in s[..r]
  {
    if s == [] then -1
    else if s[0] == x then 0
    else
      var k := IndexOf(s[1..], x);
      assert s[1..][..if k < 0 then 0 else k] == s[1..1 + if k < 0 then 0 else k];
      if k < 0 then -1 else k + 1
  }

  /** arrayMove from the sortable-list library: take the element at `from` out, insert it at `to`. */
  function ArrayMove(s: seq<string>, from: int, to: int): (r: seq<string>)
    requires 0 <= from < |s| && 0 <= to < |s|
    ensures |r| == |s|
  {
    var rest := s[..from] + s[from + 1..];
    rest[..to] + [s[from]] + rest[to..]
  }

  /** The moved element lands at `to`; those between shift by one towards `from`; the rest stay. */
  lemma ArrayMoveElements(s: seq<string>, from: int, to: int)
    requires 0 <= from < |s| && 0 <= to < |s|
    ensures ArrayMove(s, from, to)[to] == s[from]
    ensures forall k :: 0 <= k < |s| && k < from && k < to ==> ArrayMove(s, from, to)[k] == s[k]
    ensures forall k :: 0 <= k < |s| && k > from && k > to ==> ArrayMove(s, from, to)[k] == s[k]
    ensures forall k :: from <= k < to ==> ArrayMove(s, from, to)[k] == s[k + 1]
    ensures forall k :: to < k <= from ==> ArrayMove(s, from, to)[k] == s[k - 1]
  {
  }

  /** Moving never adds, drops or duplicates a text. */
  lemma ArrayMovePermutes(s: seq<string>, from: int, to: int)
    requires 0 <= from < |s| && 0 <= to < |s|
    ensures multiset(ArrayMove(s, from, to)) == multiset(s)
  {
    var rest := s[..from] + s[from + 1..];
    assert s == s[..from] + [s[from]] + s[from + 1..];
    assert rest == rest[..to] + rest[to..];
    calc {
      multiset(ArrayMove(s, from, to));
      multiset(rest[..to]) + multiset{s[from]} + multiset(rest[to..]);
      multiset(rest) + multiset{s[from]};
      multiset(s[..from]) + multiset(s[from + 1..]) + multiset{s[from]};
      multiset(s);
    }
  }

  /** How many of the first |left| positions agree, counted front to back. */
  function Agreements(left: seq<Item>, right: seq<string>): (n: int)
    ensures 0 <= n <= |left|
  {
    if left == [] then 0
    else
      var i := |left| - 1;
      Agreements(left[..i], right) + (if i < |right| && left[i].correctMatch == right[i] then 1 else 0)
  }

  /** The positions where the two columns agree. */
  ghost function AgreeingIndices(left: seq<Item>, right: seq<string>): set<int>
  {
    set i | 0 <= i < |left| && i < |right| && left[i].correctMatch == right[i]
  }

  /** The count is the number of agreeing positions. */
  lemma {:induction false} AgreementsCountsIndices(left: seq<Item>, right: seq<string>)
    ensures Agreements(left, right) == |AgreeingIndices(left, right)|
  {
    if left != [] {
      var i := |left| - 1;
      AgreementsCountsIndices(left[..i], right);
      var before := AgreeingIndices(left[..i], right);
      if i < |right| && left[i].correctMatch == right[i] {
        assert AgreeingIndices(left, right) == before + {i};
      } else {
        assert AgreeingIndices(left, right) == before;
      }
    }
  }

  /** Every position agrees exactly when the count reaches the length of the left column. */
  lemma {:induction false} FullAgreement(left: seq<Item>, right: seq<string>)
    ensures Agreements(left, right) == |left| <==>
      forall i :: 0 <= i < |left| ==> i < |right| && left[i].correctMatch == right[i]
  {
    if left != [] {
      var i := |left| - 1;
      var init := left[..i];
      FullAgreement(init, right);
      var last := i < |right| && left[i].correctMatch == right[i];
      assert Agreements(left, right) == Agreements(init, right) + (if last then 1 else 0);
      if Agreements(left, right) == |left| {
        forall j | 0 <= j < |left|
          ensures j < |right| && left[j].correctMatch == right[j]
        {
          if j < i {
            assert init[j] == left[j];
          }
        }
      }
      if forall j :: 0 <= j < |left| ==> j < |right| && left[j].correctMatch == right[j] {
        assert forall j :: 0 <= j < |init| ==> init[j] == left[j];
        assert 0 <= i < |left| && left[i] == left[|left| - 1];
        assert i < |right| && left[i].correctMatch == right[i];
      }
    }
  }

  /** checkAnswers' counting loop (the `forEach` with a mutable accumulator). */
  method CountAgreements(left: seq<Item>, right: seq<string>) returns (correct: int)
    ensures correct == Agreements(left, right)
    ensures 0 <= correct <= |left|
  {
    correct := 0;
    var index := 0;
    while index < |left|
      invariant 0 <= index <= |left|
      invariant correct == Agreements(left[..index], right)
    {
      assert left[..index + 1][..index] == left[..index];
      if index < |right| && left[index].correctMatch == right[index] {
        correct := correct + 1;
      }
      index := index + 1;
    }
    assert left[..index] == left;
  }

  /** What a deal needs: the category shuffled, and the dealt pairs' right texts shuffled. */
  predicate DealInputs(pairs: seq<Pair>, c: Category, shuffled: seq<Pair>, rightOrder: seq<string>)
  {
    multiset(shuffled) == multiset(InCategory(pairs, c))
    && multiset(rightOrder) == multiset(RightTexts(Dealt(shuffled)))
  }

  class Session {
    const pairs: seq<Pair>

    var selectedCategory: Option<Category>
    var leftItems: seq<Item>
    var rightItems: seq<string>
    var showResults: bool
    var score: int

    ghost predicate Valid()
      reads this
    {
      multiset(rightItems) == multiset(CorrectMatches(leftItems))
      && |leftItems| <= SetSize
      && 0 <= score <= |leftItems|
    }

    constructor (pairs: seq<Pair>)
      ensures this.pairs == pairs && Valid()
      ensures selectedCategory.None? && leftItems == [] && rightItems == [] && !showResults && score == 0
    {
      this.pairs := pairs;
      selectedCategory, leftItems, rightItems, showResults, score := None, [], [], false, 0;
    }

    /** The setup shared by the category effect (page.tsx:66-83) and reset (page.tsx:128-146). */
    method Deal(c: Category, shuffled: seq<Pair>, rightOrder: seq<string>)
      requires DealInputs(pairs, c, shuffled, rightOrder)
      modifies this
      ensures Valid()
      ensures selectedCategory == old(selectedCategory)
      ensures leftItems == LeftColumn(shuffled) && rightItems == rightOrder
      ensures |leftItems| == Min(SetSize, |InCategory(pairs, c)|)
      ensures forall i :: 0 <= i < |leftItems| ==> shuffled[i] in InCategory(pairs, c)
      ensures !showResults && score == 0
    {
      assert |multiset(shuffled)| == |shuffled|;
      assert forall i :: 0 <= i < |shuffled| ==> shuffled[i] in multiset(shuffled);
      leftItems := LeftColumn(shuffled);
      rightItems := rightOrder;
      showResults := false;
      score := 0;
    }

    /** A category card's click handler, followed by the effect that deals when the category changes. */
    method SelectCategory(c: Category, shuffled: seq<Pair>, rightOrder: seq<string>)
      requires Valid()
      requires selectedCategory != Some(c) ==> DealInputs(pairs, c, shuffled, rightOrder)
      modifies this
      ensures Valid()
      ensures selectedCategory == Some(c)
      ensures old(selectedCategory) != Some(c) ==>
        leftItems == LeftColumn(shuffled) && rightItems == rightOrder && !showResults && score == 0
      ensures old(selectedCategory) == Some(c) ==>
        leftItems == old(leftItems) && rightItems == old(rightItems)
        && showResults == old(showResults) && score == old(score)
    {
      if selectedCategory != Some(c) {
        selectedCategory := Some(c);
        Deal(c, shuffled, rightOrder);
      }
    }

    /** "Voltar" (page.tsx:194): back to the category list; the columns are left as they are. */
    method Back()
      requires Valid()
      modifies this
      ensures Valid() && selectedCategory.None?
      ensures leftItems == old(leftItems) && rightItems == old(rightItems)
      ensures showResults == old(showResults) && score == old(score)
    {
      selectedCategory := None;
    }

    /** reset: deals the selected category again; does nothing without one. */
    method Reset(shuffled: seq<Pair>, rightOrder: seq<string>)
      requires Valid()
      requires selectedCategory.Some? ==> DealInputs(pairs, selectedCategory.value, shuffled, rightOrder)
      modifies this
      ensures Valid() && selectedCategory == old(selectedCategory)
      ensures selectedCategory.Some? ==>
        leftItems == LeftColumn(shuffled) && rightItems == rightOrder && !showResults && score == 0
      ensures selectedCategory.None? ==>
        leftItems == old(leftItems) && rightItems == old(rightItems)
        && showResults == old(showResults) && score == old(score)
    {
      if selectedCategory.Some? {
        Deal(selectedCategory.value, shuffled, rightOrder);
      }
    }

    /**
     * handleDragEnd: moves the dragged text to the position of the text it was dropped
     * on. The ids dnd-kit reports are right-column texts; a duplicated text is found at
     * its first position.
     */
    method HandleDragEnd(active: string, over: Option<string>)
      requires Valid() && active in rightItems && (over.Some? ==> over.value in rightItems)
      modifies this
      ensures Valid()
      ensures leftItems == old(leftItems) && selectedCategory == old(selectedCategory)
      ensures showResults == old(showResults) && score == old(score)
      ensures over.None? || IndexOf(old(rightItems), active) == IndexOf(old(rightItems), over.value) ==>
        rightItems == old(rightItems)
      ensures over.Some? && IndexOf(old(rightItems), active) != IndexOf(old(rightItems), over.value) ==>
        rightItems == ArrayMove(old(rightItems), IndexOf(old(rightItems), active), IndexOf(old(rightItems), over.value))
    {
      if over.None? {
        return;
      }
      var activeIndex := IndexOf(rightItems, active);
      var overIndex := IndexOf(rightItems, over.value);
      if activeIndex != overIndex {
        ArrayMovePermutes(rightItems, activeIndex, overIndex);
        rightItems := ArrayMove(rightItems, activeIndex, overIndex);
      }
    }

    /**
     * checkAnswers: the score is the number of agreeing positions; a full match adds
     * 10 points per pair to the store and a streak step, a partial one touches neither.
     * Nothing records that this set was already scored.
     */
    method CheckAnswers(store: GameStore)
      requires Valid() && store.Valid()
      modifies this, store
      ensures Valid() && store.Valid()
      ensures leftItems == old(leftItems) && rightItems == old(rightItems)
      ensures selectedCategory == old(selectedCategory)
      ensures score == Agreements(leftItems, rightItems) && showResults
      ensures score == |leftItems| ==>
        store.State() == FullSetRewarded(old(store.State()), |leftItems|)
      ensures score < |leftItems| ==> store.State() == old(store.State())
    {
      var correct := CountAgreements(leftItems, rightItems);
      score := correct;
      showResults := true;
      if correct == |leftItems| {
        AwardFullSet(store, correct);
      }
    }

    /** "Tentar Novamente" after a partial match: hides the results and changes nothing else. */
    method HideResults()
      requires Valid()
      modifies this
      ensures Valid() && !showResults
      ensures leftItems == old(leftItems) && rightItems == old(rightItems)
      ensures score == old(score) && selectedCategory == old(selectedCategory)
    {
      showResults := false;
    }

    /** shuffle: the right column in another order, results hidden. */
    method Shuffle(newOrder: seq<string>)
      requires Valid() && multiset(newOrder) == multiset(rightItems)
      modifies this
      ensures Valid()
      ensures rightItems == newOrder && !showResults
      ensures leftItems == old(leftItems) && score == old(score) && selectedCategory == old(selectedCategory)
    {
      rightItems := newOrder;
      showResults := false;
    }
  }

  /** The store after a full set of `pairs` pairs is rewarded. */
  function FullSetRewarded(s: StoreState, pairs: int): (r: StoreState)
    ensures r.totalScore == s.totalScore + PointsPerPair * pairs
    ensures r.matchingScore == s.matchingScore + PointsPerPair * pairs
    ensures r.leversScore == s.leversScore && r.whoAmIScore == s.whoAmIScore && r.movementScore == s.movementScore
    ensures r.currentStreak == s.currentStreak + 1 && r.bestStreak >= r.currentStreak && r.bestStreak >= s.bestStreak
    ensures r.totalXP == s.totalXP && r.level == s.level && r.extra == s.extra
  {
    KeyMapping();
    StreakIncremented(ScoreAdded(s, PointsPerPair * pairs, Matching))
  }

  /** The reward for a fully matched set: its points under the matching score, then a streak step. */
  method AwardFullSet(store: GameStore, pairs: int)
    requires store.Valid()
    modifies store
    ensures store.Valid()
    ensures store.State() == FullSetRewarded(old(store.State()), pairs)
  {
    store.AddScore(PointsPerPair * pairs, Matching);
    store.IncrementStreak();
  }

  /** Checking a fully matched set twice awards its points and a streak step twice. */
  method CheckTwice(s: Session, store: GameStore)
    requires s.Valid() && store.Valid()
    requires forall i :: 0 <= i < |s.leftItems| ==> i < |s.rightItems| && s.leftItems[i].correctMatch == s.rightItems[i]
    modifies s, store
    ensures store.totalScore == old(store.totalScore) + 2 * PointsPerPair * |s.leftItems|
    ensures store.currentStreak == old(store.currentStreak) + 2
  {
    FullAgreement(s.leftItems, s.rightItems);
    s.CheckAnswers(store);
    FullAgreement(s.leftItems, s.rightItems);
    s.CheckAnswers(store);
  }
}
