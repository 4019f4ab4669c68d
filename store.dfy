/**
 * The session store of lib/store.ts: one record of nine counters and the five actions
 * that merge a patch, computed from the old record, into it.
 *
 * The actions pick a per-game field by building the key `${game}Score`. That key is
 * modelled by `ScoreKeyFor`; a key the record does not declare lands in `extra`, the
 * part of the object beyond the declared fields.
 */
module SessionStore {
  import opened Options

  /** The `game` argument of addScore and resetGame. */
  datatype Game = Levers | WhoAmI | Movement | Matching

  /** The four per-game score fields the record declares. */
  datatype ScoreField = LeversScore | WhoAmIScore | MovementScore | MatchingScore

  /** Where a computed key lands: a declared field, or a key the record does not declare. */
  datatype ScoreKey = Declared(field: ScoreField) | Stray(name: string)

  /** A JavaScript number held under an undeclared key: NaN, or an integer. */
  datatype JsNumber = NaN | Num(value: int)

  /** The string literal callers pass for each game. */
  function GameName(g: Game): string
  {
    match g
    case Levers => "levers"
    case WhoAmI => "whoami"
    case Movement => "movement"
    case Matching => "matching"
  }

  /** The declared name of each per-game field. */
  function FieldName(f: ScoreField): string
  {
    match f
    case LeversScore => "leversScore"
    case WhoAmIScore => "whoAmIScore"
    case MovementScore => "movementScore"
    case MatchingScore => "matchingScore"
  }

  /** The declared field with the given name, if there is one. */
  function FieldNamed(name: string): (r: Option<ScoreField>)
    ensures r.Some? ==> FieldName(r.value) == name
    ensures r.None? ==> forall f :: FieldName(f) != name
  {
    if name == "leversScore" then Some(LeversScore)
    else if name == "whoAmIScore" then Some(WhoAmIScore)
    else if name == "movementScore" then Some(MovementScore)
    else if name == "matchingScore" then Some(MatchingScore)
    else None
  }

  /** The key `${game}Score`, resolved against the declared fields. */
  function ScoreKeyFor(g: Game): (k: ScoreKey)
    ensures k.Declared? ==> FieldName(k.field) == GameName(g) + "Score"
    ensures k.Stray? ==> k.name == GameName(g) + "Score" && forall f :: FieldName(f) != k.name
  {
    var name := GameName(g) + "Score";
    match FieldNamed(name)
    case Some(f) => Declared(f)
    case None => Stray(name)
  }

  /** The record: nine counters, plus whatever undeclared keys the actions have written. */
  datatype StoreState = StoreState(
    totalScore: int, totalXP: int, level: int,
    leversScore: int, whoAmIScore: int, movementScore: int, matchingScore: int,
    currentStreak: int, bestStreak: int,
    extra: map<string, JsNumber>)

  function Score(s: StoreState, f: ScoreField): int
  {
    match f
    case LeversScore => s.leversScore
    case WhoAmIScore => s.whoAmIScore
    case MovementScore => s.movementScore
    case MatchingScore => s.matchingScore
  }

  function WithScore(s: StoreState, f: ScoreField, v: int): (r: StoreState)
    ensures Score(r, f) == v
    ensures forall f' :: f' != f ==> Score(r, f') == Score(s, f')
    ensures r.(leversScore := s.leversScore, whoAmIScore := s.whoAmIScore,
               movementScore := s.movementScore, matchingScore := s.matchingScore) == s
  {
    match f
    case LeversScore => s.(leversScore := v)
    case WhoAmIScore => s.(whoAmIScore := v)
    case MovementScore => s.(movementScore := v)
    case MatchingScore => s.(matchingScore := v)
  }

  /** `Math.floor(totalXP / 100) + 1`. */
  function Level(totalXP: int): (r: int)
    ensures 100 * (r - 1) <= totalXP < 100 * r
    ensures totalXP >= 0 ==> r >= 1
  {
    totalXP / 100 + 1
  }

  /** `bestStreak ≥ currentStreak ≥ 0`. */
  predicate StreakOk(s: StoreState)
  {
    0 <= s.currentStreak <= s.bestStreak
  }

  /** `level` agrees with `totalXP`. */
  predicate LevelOk(s: StoreState)
  {
    s.level == Level(s.totalXP)
  }

  /** The initial record. */
  function Initial(): (r: StoreState)
    ensures r.totalScore == r.totalXP == r.currentStreak == r.bestStreak == 0
    ensures forall f :: Score(r, f) == 0
    ensures r.level == 1 && r.extra == map[]
    ensures StreakOk(r) && LevelOk(r)
  {
    StoreState(0, 0, 1, 0, 0, 0, 0, 0, 0, map[])
  }

  /** `undefined + points` is NaN, `NaN + points` is NaN. */
  function AddToExtra(extra: map<string, JsNumber>, key: string, points: int): (r: map<string, JsNumber>)
    ensures r.Keys == extra.Keys + {key}
    ensures forall k :: k in extra && k != key ==> r[k] == extra[k]
    ensures r[key] == if key in extra && extra[key].Num? then Num(extra[key].value + points) else NaN
  {
    if key in extra && extra[key].Num? then extra[key := Num(extra[key].value + points)]
    else extra[key := NaN]
  }

  /** addScore(points, game). */
  function ScoreAdded(s: StoreState, points: int, game: Game): (r: StoreState)
    ensures r.totalScore == s.totalScore + points
    ensures ScoreKeyFor(game).Declared? ==>
      Score(r, ScoreKeyFor(game).field) == Score(s, ScoreKeyFor(game).field) + points
      && r.extra == s.extra
    ensures ScoreKeyFor(game).Stray? ==> r.extra == AddToExtra(s.extra, ScoreKeyFor(game).name, points)
    ensures forall f :: ScoreKeyFor(game) != Declared(f) ==> Score(r, f) == Score(s, f)
    ensures r.totalXP == s.totalXP && r.level == s.level
    ensures r.currentStreak == s.currentStreak && r.bestStreak == s.bestStreak
  {
    var s' := s.(totalScore := s.totalScore + points);
    match ScoreKeyFor(game)
    case Declared(f) => WithScore(s', f, Score(s, f) + points)
    case Stray(k) => s'.(extra := AddToExtra(s.extra, k, points))
  }

  /** incrementStreak(). */
  function StreakIncremented(s: StoreState): (r: StoreState)
    ensures r.currentStreak == s.currentStreak + 1
    ensures r.bestStreak == if s.bestStreak >= s.currentStreak + 1 then s.bestStreak else s.currentStreak + 1
    ensures s.currentStreak >= 0 ==> StreakOk(r)
    ensures r.bestStreak >= s.bestStreak && r.bestStreak >= r.currentStreak
    ensures r.(currentStreak := s.currentStreak, bestStreak := s.bestStreak) == s
  {
    var next := s.currentStreak + 1;
    s.(currentStreak := next, bestStreak := if s.bestStreak > next then s.bestStreak else next)
  }

  /** resetStreak(). */
  function StreakReset(s: StoreState): (r: StoreState)
    ensures r.currentStreak == 0 && r.bestStreak == s.bestStreak
    ensures StreakOk(s) ==> StreakOk(r)
    ensures r.(currentStreak := s.currentStreak) == s
  {
    s.(currentStreak := 0)
  }

  /** addXP(xp). */
  function XPAdded(s: StoreState, xp: int): (r: StoreState)
    ensures r.totalXP == s.totalXP + xp
    ensures LevelOk(r)
    ensures LevelOk(s) && xp >= 0 ==> r.level >= s.level
    ensures r.totalXP >= 0 ==> r.level >= 1
    ensures r.(totalXP := s.totalXP, level := s.level) == s
  {
    var xp' := s.totalXP + xp;
    s.(totalXP := xp', level := xp' / 100 + 1)
  }

  /** resetGame(game). */
  function GameReset(s: StoreState, game: Game): (r: StoreState)
    ensures r.totalScore == s.totalScore
    ensures ScoreKeyFor(game).Declared? ==> Score(r, ScoreKeyFor(game).field) == 0 && r.extra == s.extra
    ensures ScoreKeyFor(game).Stray? ==> r.extra == s.extra[ScoreKeyFor(game).name := Num(0)]
    ensures forall f :: ScoreKeyFor(game) != Declared(f) ==> Score(r, f) == Score(s, f)
    ensures r.totalXP == s.totalXP && r.level == s.level
    ensures r.currentStreak == s.currentStreak && r.bestStreak == s.bestStreak
  {
    match ScoreKeyFor(game)
    case Declared(f) => WithScore(s, f, 0)
    case Stray(k) => s.(extra := s.extra[k := Num(0)])
  }

  /** The store as a class: the record's fields, updated in place by its actions. */
  class GameStore {
    var totalScore: int
    var totalXP: int
    var level: int
    var leversScore: int
    var whoAmIScore: int
    var movementScore: int
    var matchingScore: int
    var currentStreak: int
    var bestStreak: int
    var extra: map<string, JsNumber>

    function State(): StoreState
      reads this
    {
      StoreState(totalScore, totalXP, level, leversScore, whoAmIScore, movementScore,
                 matchingScore, currentStreak, bestStreak, extra)
    }

    ghost predicate Valid()
      reads this
    {
      StreakOk(State()) && LevelOk(State())
    }

    constructor ()
      ensures State() == Initial() && Valid()
    {
      totalScore, totalXP, level := 0, 0, 1;
      leversScore, whoAmIScore, movementScore, matchingScore := 0, 0, 0, 0;
      currentStreak, bestStreak, extra := 0, 0, map[];
    }

    method AddScore(points: int, game: Game)
      requires Valid()
      modifies this
      ensures Valid()
      ensures State() == ScoreAdded(old(State()), points, game)
    {
      totalScore := totalScore + points;
      match ScoreKeyFor(game)
      case Declared(LeversScore) => leversScore := leversScore + points;
      case Declared(WhoAmIScore) => whoAmIScore := whoAmIScore + points;
      case Declared(MovementScore) => movementScore := movementScore + points;
      case Declared(MatchingScore) => matchingScore := matchingScore + points;
      case Stray(k) => extra := AddToExtra(extra, k, points);
    }

    method IncrementStreak()
      requires Valid()
      modifies this
      ensures Valid()
      ensures State() == StreakIncremented(old(State()))
    {
      var next := currentStreak + 1;
      currentStreak := next;
      bestStreak := if bestStreak > next then bestStreak else next;
    }

    method ResetStreak()
      requires Valid()
      modifies this
      ensures Valid()
      ensures State() == StreakReset(old(State()))
    {
      currentStreak := 0;
    }

    method AddXP(xp: int)
      requires Valid()
      modifies this
      ensures Valid()
      ensures State() == XPAdded(old(State()), xp)
    {
      var newXP := totalXP + xp;
      totalXP := newXP;
      level := newXP / 100 + 1;
    }

    method ResetGame(game: Game)
      requires Valid()
      modifies this
      ensures Valid()
      ensures State() == GameReset(old(State()), game)
    {
      match ScoreKeyFor(game)
      case Declared(LeversScore) => leversScore := 0;
      case Declared(WhoAmIScore) => whoAmIScore := 0;
      case Declared(MovementScore) => movementScore := 0;
      case Declared(MatchingScore) => matchingScore := 0;
      case Stray(k) => extra := extra[k := Num(0)];
    }
  }

  // ---------------------------------------------------------------------------
  // Sequences of actions

  datatype Action =
    | AddScoreAction(points: int, game: Game)
    | IncrementStreakAction
    | ResetStreakAction
    | AddXPAction(xp: int)
    | ResetGameAction(game: Game)

  function Apply(s: StoreState, a: Action): StoreState
  {
    match a
    case AddScoreAction(p, g) => ScoreAdded(s, p, g)
    case IncrementStreakAction => StreakIncremented(s)
    case ResetStreakAction => StreakReset(s)
    case AddXPAction(xp) => XPAdded(s, xp)
    case ResetGameAction(g) => GameReset(s, g)
  }

  /** The record after the actions, in order. */
  function Run(s: StoreState, acts: seq<Action>): StoreState
    decreases |acts|
  {
    if acts == [] then s else Run(Apply(s, acts[0]), acts[1..])
  }

  /** The points passed to the addScore actions among `acts`. */
  function PointsAdded(acts: seq<Action>): int
  {
    if acts == [] then 0
    else (if acts[0].AddScoreAction? then acts[0].points else 0) + PointsAdded(acts[1..])
  }

  /** The game keys map to the declared fields, except whoami, whose key is not declared. */
  lemma KeyMapping()
    ensures ScoreKeyFor(Levers) == Declared(LeversScore)
    ensures ScoreKeyFor(Movement) == Declared(MovementScore)
    ensures ScoreKeyFor(Matching) == Declared(MatchingScore)
    ensures ScoreKeyFor(WhoAmI) == Stray("whoamiScore")
  {
    assert GameName(Levers) + "Score" == "leversScore";
    assert GameName(Movement) + "Score" == "movementScore";
    assert GameName(Matching) + "Score" == "matchingScore";
    assert GameName(WhoAmI) + "Score" == "whoamiScore";
    assert "whoamiScore"[3] != "whoAmIScore"[3];
    assert "matchingScore"[0] != "leversScore"[0] && "matchingScore"[0] != "whoAmIScore"[0];
    assert "matchingScore"[1] != "movementScore"[1];
    assert "movementScore"[0] != "leversScore"[0] && "movementScore"[0] != "whoAmIScore"[0];
  }

  /** No game's key is the declared `whoAmIScore` field. */
  lemma WhoAmIScoreNeverKeyed(g: Game)
    ensures ScoreKeyFor(g) != Declared(WhoAmIScore)
  {
    KeyMapping();
  }

  /** No action ever changes the declared `whoAmIScore` field. */
  lemma {:induction false} WhoAmIScoreConstant(s: StoreState, acts: seq<Action>)
    ensures Run(s, acts).whoAmIScore == s.whoAmIScore
    decreases |acts|
  {
    if acts != [] {
      var a := acts[0];
      if a.AddScoreAction? || a.ResetGameAction? {
        WhoAmIScoreNeverKeyed(a.game);
        assert Score(Apply(s, a), WhoAmIScore) == Score(s, WhoAmIScore);
      }
      WhoAmIScoreConstant(Apply(s, a), acts[1..]);
    }
  }

  /** addScore(p, 'whoami') writes the undeclared key `whoamiScore`: NaN unless a resetGame put a number there first. */
  lemma WhoAmIScoreGoesElsewhere(s: StoreState, points: int)
    ensures ScoreAdded(s, points, WhoAmI).whoAmIScore == s.whoAmIScore
    ensures ScoreAdded(s, points, WhoAmI).totalScore == s.totalScore + points
    ensures "whoamiScore" !in s.extra ==> ("whoamiScore" in ScoreAdded(s, points, WhoAmI).extra
      && ScoreAdded(s, points, WhoAmI).extra["whoamiScore"] == NaN)
  {
    KeyMapping();
  }

  /** Over any sequence of actions, totalScore moves by exactly the points passed to addScore. */
  lemma {:induction false} TotalScoreIsSumOfPoints(s: StoreState, acts: seq<Action>)
    ensures Run(s, acts).totalScore == s.totalScore + PointsAdded(acts)
    decreases |acts|
  {
    if acts != [] {
      TotalScoreIsSumOfPoints(Apply(s, acts[0]), acts[1..]);
    }
  }

  /** Every action keeps `bestStreak ≥ currentStreak ≥ 0`, and bestStreak never decreases. */
  lemma {:induction false} StreakInvariant(s: StoreState, acts: seq<Action>)
    requires StreakOk(s)
    ensures StreakOk(Run(s, acts))
    ensures Run(s, acts).bestStreak >= s.bestStreak
    decreases |acts|
  {
    if acts != [] {
      StreakInvariant(Apply(s, acts[0]), acts[1..]);
    }
  }

  /** With non-negative XP gains, level stays consistent with totalXP, is at least 1, and never decreases. */
  lemma {:induction false} LevelMonotone(s: StoreState, acts: seq<Action>)
    requires LevelOk(s) && s.totalXP >= 0
    requires forall i :: 0 <= i < |acts| && acts[i].AddXPAction? ==> acts[i].xp >= 0
    ensures LevelOk(Run(s, acts)) && Run(s, acts).totalXP >= 0
    ensures s.level <= Run(s, acts).level && Run(s, acts).level >= 1
    decreases |acts|
  {
    if acts != [] {
      assert forall i :: 0 <= i < |acts[1..]| ==> acts[1..][i] == acts[i + 1];
      LevelMonotone(Apply(s, acts[0]), acts[1..]);
    }
  }

  /** n copies of one action. */
  function Repeat(a: Action, n: nat): (r: seq<Action>)
    ensures |r| == n && forall i :: 0 <= i < n ==> r[i] == a
  {
    if n == 0 then [] else [a] + Repeat(a, n - 1)
  }

  /** n consecutive incrementStreak calls add n to currentStreak and raise bestStreak to at least that. */
  lemma {:induction false} IncrementStreakTimes(s: StoreState, n: nat)
    ensures Run(s, Repeat(IncrementStreakAction, n)).currentStreak == s.currentStreak + n
    ensures Run(s, Repeat(IncrementStreakAction, n)).bestStreak ==
      if n == 0 || s.bestStreak >= s.currentStreak + n then s.bestStreak else s.currentStreak + n
    decreases n
  {
    if n > 0 {
      assert Repeat(IncrementStreakAction, n)[1..] == Repeat(IncrementStreakAction, n - 1);
      IncrementStreakTimes(StreakIncremented(s), n - 1);
    }
  }

  /** resetGame keeps totalScore, so totalScore can exceed the sum of the per-game fields. */
  lemma ResetGameKeepsTotal()
    ensures var s := Run(Initial(), [AddScoreAction(10, Levers), ResetGameAction(Levers)]);
      s.totalScore == 10 && s.leversScore + s.whoAmIScore + s.movementScore + s.matchingScore == 0
  {
    KeyMapping();
    var acts := [AddScoreAction(10, Levers), ResetGameAction(Levers)];
    var s1 := ScoreAdded(Initial(), 10, Levers);
    var s2 := GameReset(s1, Levers);
    assert acts[1..] == [ResetGameAction(Levers)];
    assert Run(Initial(), acts) == Run(s1, [ResetGameAction(Levers)]);
    assert Run(s1, [ResetGameAction(Levers)]) == Run(s2, []);
  }

  /** addXP(250) from the initial record reaches level 3. */
  lemma AddXPExample()
    ensures XPAdded(Initial(), 250).level == 3
  {
  }
}
