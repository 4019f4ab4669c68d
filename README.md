# Biodinâmica game: a verified model of its scoring core

Biodinâmica is a browser quiz about biomechanics with four games:

- **Quem Sou Eu** ("who am I"): guess a structure from hints.
- **Alavancas**: classify levers.
- **Análise de Movimento**: pick the right description of a movement.
- **Conecte os Conceitos**: drag-and-drop matching.

Each game keeps its own session state. Each one reports points and streak steps to one shared store of counters. That store holds the total score, the XP, the level, a score per game, and the current and best streaks.

This project models that scoring core in Dafny and proves properties about it:

- `text.dfy` (module `TextNormalizer`) is the answer validator, written as pure functions. Normalisation lowercases, applies canonical decomposition, strips the combining diacritical marks U+0300–U+036F and trims ECMAScript whitespace. A guess is accepted when it equals the answer after normalisation, or when it is longer than three UTF-16 code units (the length JavaScript reports) and occurs inside the normalised answer.
  - Lowercasing and canonical decomposition are Unicode tables. They enter as a `UnicodeTables` value that maps each character to its replacement.
  - Mark stripping, trimming and substring search are written out.
- `store.dfy` (module `SessionStore`) holds two things:
  - the session store: a class `GameStore` with one field per counter and one method per action;
  - the pure transition functions that specify those methods.

  The store builds the per-game key from the game's name. For `'whoami'` that key is `whoamiScore`, a property the record does not declare; the declared one is `whoAmIScore`. The model keeps undeclared keys in an `extra` map, where a missing key plus points is JavaScript's `NaN`. It proves that `whoAmIScore` never changes.
- `whoami.dfy`, `levers.dfy`, `movement.dfy` and `matching.dfy` hold the four game controllers. In each, the page component's state variables become the fields of a `Session` class. The event handlers become methods that take the store.
  - Each handler reads the values from before it ran, as the page's closures do.
  - An effect that reacts to a state change runs inside the handler that makes that change:
    - the option shuffle when the movement question changes;
    - dealing the columns when the matching category changes.
  - Every random choice is a parameter:
    - each Fisher–Yates swap index `j ∈ [0, i]` is one entry of `draws`;
    - each `sort(() => Math.random() - 0.5)` is a permutation supplied by the caller.
- `options.dfy` holds the `Option` type.

Line numbers below refer to the repository's files.

## Model

| member | source | states |
|---|---|---|
| TextNormalizer.StripMarks | lib/utils.ts:23 | the result has no character in U+0300–U+036F, contains exactly the characters of the input that are not marks, and leaves a mark-free text unchanged; how often and in what order they are kept is stated by StripMarksCounts and StripMarksConcat |
| TextNormalizer.StripMarksCounts | lib/utils.ts:23 | every non-mark character occurs in the result exactly as often as in the input, and no mark occurs |
| TextNormalizer.StripMarksConcat | lib/utils.ts:23 | stripping a concatenation strips each part and concatenates the results, so the kept characters keep their order |
| TextNormalizer.TrimStart | lib/utils.ts:24 | the result is a suffix of the input, everything dropped is whitespace, and the result does not start with whitespace |
| TextNormalizer.TrimEnd | lib/utils.ts:24 | the result is a prefix of the input, everything dropped is whitespace, and the result does not end with whitespace |
| TextNormalizer.Trim | lib/utils.ts:24 | the result is a contiguous piece `s[i..j]` of the input with only whitespace before `i` and after `j`, has no leading or trailing whitespace, holds no character more often than the input, and an already trimmed text is returned unchanged |
| TextNormalizer.TrimSpec | lib/utils.ts:24 | trimming the start and then the end yields a piece between two runs of whitespace, no character more often than the input, and leaves a trimmed text unchanged |
| TextNormalizer.TrimBounds | lib/utils.ts:24 | a piece left after dropping whitespace from the start and then from the end sits in the input between two runs of whitespace |
| TextNormalizer.Normalize | lib/utils.ts:19-25 | the normal form contains no combining diacritical mark and has no leading or trailing whitespace |
| TextNormalizer.MapChars | lib/utils.ts:21-22 | a per-character table applied to each character in order, the pieces joined; its properties are the two lemmas below |
| TextNormalizer.MapCharsLength | lib/utils.ts:21-22 | a table that maps every character to a single character keeps the length |
| TextNormalizer.MapCharsIdentity | lib/utils.ts:21-22 | a per-character table that fixes every character of a text leaves that text unchanged |
| TextNormalizer.NormalizeFixes | lib/utils.ts:19-25 | a trimmed, mark-free text whose characters the tables leave alone is its own normal form |
| TextNormalizer.NormalizeIdempotent | lib/utils.ts:19-25 | normalising a normal form again changes nothing, provided lowercasing and decomposition fix its characters |
| TextNormalizer.TextsMatch | lib/utils.ts:30-32 | equality of the two normal forms; its properties are TextsMatchEquivalence and TextsMatchImpliesContains |
| TextNormalizer.TextContains | lib/utils.ts:37-39 | the first normal form includes the second; characterised by IncludesIffOccurs |
| TextNormalizer.TextsMatchEquivalence | lib/utils.ts:30-32 | textsMatch is reflexive, symmetric and transitive |
| TextNormalizer.TextsMatchImpliesContains | lib/utils.ts:30-39 | texts that match each contain the other |
| TextNormalizer.OccursImpliesIncludes | lib/utils.ts:37-39 | a needle found at some position is reported by `includes` |
| TextNormalizer.IncludesImpliesOccurs | lib/utils.ts:37-39 | whenever `includes` holds, it returns a position where the needle occurs |
| TextNormalizer.IncludesIffOccurs | lib/utils.ts:37-39 | `includes` holds exactly when the needle occurs contiguously at some position |
| TextNormalizer.Includes | lib/utils.ts:38 | `includes`: a prefix is always included, and an included needle is no longer than the text it is found in |
| TextNormalizer.Utf16Length | lib/utils.ts:52 | the JavaScript length of a text: between its number of characters and twice that, and equal to it when every character lies in the Basic Multilingual Plane; its exact value is given by Utf16LengthCounts |
| TextNormalizer.Utf16LengthAppend | lib/utils.ts:52 | the length of a concatenation is the sum of the lengths of its parts |
| TextNormalizer.Utf16LengthCounts | lib/utils.ts:52 | the length is the number of characters plus the number of positions holding a character above U+FFFF |
| TextNormalizer.IsValidAnswer | lib/utils.ts:47-55 | an exact match of normal forms, or a normalised guess longer than 3 code units included in the normalised answer; characterised by the lemmas below |
| TextNormalizer.ValidAnswerCharacterisation | lib/utils.ts:47-55 | a guess is valid exactly when its normal form equals the answer's, or is longer than 3 UTF-16 code units and occurs in the answer's |
| TextNormalizer.ValidAnswerReflexive | lib/utils.ts:51 | every text is a valid answer to itself |
| TextNormalizer.ShortGuessNeedsExactMatch | lib/utils.ts:51-52 | a guess whose normal form has at most 3 UTF-16 code units is accepted exactly when it equals the normalised answer |
| TextNormalizer.AcceptedGuessIsContained | lib/utils.ts:37-54 | every accepted guess is contained in the answer; a guess whose normal form is longer than the answer's is rejected |
| TextNormalizer.AstralGuessIsLongEnough | lib/utils.ts:52 | a guess of two characters outside the Basic Multilingual Plane counts as four code units, so it is accepted as a piece of a longer answer |
| TextNormalizer.EmptyGuess | lib/utils.ts:47-55 | the empty guess is accepted exactly when the answer normalises to the empty text |
| SessionStore.FieldNamed | lib/store.ts:4-18 | a name is mapped to a declared score field exactly when that field carries the name |
| SessionStore.ScoreKeyFor | lib/store.ts:42-66 | the key of a game is its name followed by "Score": a declared field when one has that name, otherwise a stray key no field carries |
| SessionStore.KeyMapping | lib/store.ts:12-42 | levers, movement and matching reach their declared fields; whoami reaches the stray key `whoamiScore` |
| SessionStore.WithScore | lib/store.ts:45 | writing one score field sets it and leaves every other field of the record unchanged |
| SessionStore.Level | lib/store.ts:58 | the level is the one with 100·(level−1) ≤ XP < 100·level, at least 1 for non-negative XP |
| SessionStore.Initial | lib/store.ts:31-39 | every counter starts at 0 and the level at 1, satisfying the streak and level invariants |
| SessionStore.AddToExtra | lib/store.ts:45 | adding to an undeclared key yields a number only when the key already holds one, and NaN otherwise; no other key changes |
| SessionStore.ScoreAdded | lib/store.ts:41-47 | totalScore grows by the points; a declared game field grows by the points, while a stray key gets the AddToExtra result (NaN when the key is fresh); every other counter is unchanged |
| SessionStore.StreakIncremented | lib/store.ts:49-52 | currentStreak grows by one, bestStreak becomes the larger of the old best and the new streak, and nothing else changes |
| SessionStore.StreakReset | lib/store.ts:54 | currentStreak becomes 0, bestStreak and everything else stay, and the streak invariant is kept |
| SessionStore.XPAdded | lib/store.ts:56-63 | totalXP grows by the amount, the level matches the new XP and never drops for a non-negative amount, and nothing else changes |
| SessionStore.GameReset | lib/store.ts:65-70 | the game's keyed entry becomes 0, totalScore and every other counter stay |
| SessionStore.GameStore.constructor | lib/store.ts:31-39 | the store starts in the initial state |
| SessionStore.GameStore.AddScore | lib/store.ts:41-47 | the new state is the old one with the points added, and the invariants are kept |
| SessionStore.GameStore.IncrementStreak | lib/store.ts:49-52 | the new state is the old one with the streak stepped, and the invariants are kept |
| SessionStore.GameStore.ResetStreak | lib/store.ts:54 | the new state is the old one with the current streak cleared, and the invariants are kept |
| SessionStore.GameStore.AddXP | lib/store.ts:56-63 | the new state is the old one with the XP added and the level recomputed, and the invariants are kept |
| SessionStore.GameStore.ResetGame | lib/store.ts:65-70 | the new state is the old one with the game's entry zeroed, and the invariants are kept |
| SessionStore.WhoAmIScoreNeverKeyed | lib/store.ts:12-66 | no game's key is the declared whoAmIScore field |
| SessionStore.WhoAmIScoreConstant | lib/store.ts:12-70 | no sequence of actions ever changes whoAmIScore |
| SessionStore.WhoAmIScoreGoesElsewhere | lib/store.ts:41-47 | adding points to whoami raises totalScore but not whoAmIScore, and on a fresh key writes NaN under `whoamiScore` |
| SessionStore.TotalScoreIsSumOfPoints | lib/store.ts:44 | after any sequence of actions, totalScore is its start value plus the sum of all points added |
| SessionStore.StreakInvariant | lib/store.ts:49-54 | over any sequence of actions, 0 ≤ currentStreak ≤ bestStreak is kept and bestStreak never decreases |
| SessionStore.LevelMonotone | lib/store.ts:56-63 | with non-negative XP amounts, the level stays at least 1, matches the XP and never decreases |
| SessionStore.IncrementStreakTimes | lib/store.ts:49-52 | n streak steps raise currentStreak by n and bestStreak to the larger of the old best and the new streak |
| SessionStore.ResetGameKeepsTotal | lib/store.ts:44-70 | after 10 levers points and a levers reset, totalScore is 10 while every game field is 0 |
| SessionStore.AddXPExample | lib/store.ts:58 | 250 XP from the start gives level 3 |
| WhoAmIGame.Session.MaxHints | app/games/whoami/page.tsx:29 | the current question's hint count, at least 1 for a well-formed bank |
| WhoAmIGame.Session.constructor | app/games/whoami/page.tsx:17-25 | the first question with one hint shown, a budget of 100, no attempts and score 0 |
| WhoAmIGame.Session.TypeGuess | app/games/whoami/page.tsx:251 | only the guess changes |
| WhoAmIGame.Session.RevealHint | app/games/whoami/page.tsx:46-52 | below the hint count, one more hint and the budget becomes max(10, budget − 15), which lifts a budget below 10 to 10; otherwise nothing changes |
| WhoAmIGame.Session.CheckAnswer | app/games/whoami/page.tsx:54-77 | valid guess: the budget is added to the session score and to the store under whoami, the streak steps and the answer shows. Wrong guess: budget max(0, budget − 10), one more attempt, and only when the old attempt count was at least 2 the answer shows as wrong and the streak resets. The budget stays within [0, 100] |
| WhoAmIGame.Session.Award | app/games/whoami/page.tsx:58-64 | the correct branch: session score and store gain the budget, the streak steps, the answer shows as correct |
| WhoAmIGame.Session.Strike | app/games/whoami/page.tsx:65-76 | the wrong branch, with the attempt test reading the count from before the guess |
| WhoAmIGame.Session.NextQuestion | app/games/whoami/page.tsx:79-93 | before the last question, advance and restore hints 1, budget 100, no attempts; on the last, nothing changes |
| WhoAmIGame.Session.Reset | app/games/whoami/page.tsx:95-104 | the first question with the start values and score 0 |
| WhoAmIGame.NeverCompleted | app/games/whoami/page.tsx:79-106 | the question index never reaches the completed screen |
| WhoAmIGame.HintWrongRight | app/games/whoami/page.tsx:46-77 | a hint, a wrong guess and a right one earn 75 points in the session and in the store's total, and one streak step |
| WhoAmIGame.EnterWithEmptyGuess | app/games/whoami/page.tsx:252-263 | an empty guess sent with Enter against a non-blank answer is a wrong attempt |
| LeversGame.Session.Questions | app/games/levers/page.tsx:40 | no questions without a difficulty; a non-empty bank once one is chosen |
| LeversGame.Session.constructor | app/games/levers/page.tsx:18-22 | no difficulty, index 0, nothing selected, score 0 |
| LeversGame.Session.SelectDifficulty | app/games/levers/page.tsx:116 | the difficulty is set and nothing else changes |
| LeversGame.Session.HandleAnswer | app/games/levers/page.tsx:43-61 | ignored while feedback shows. Otherwise the choice is recorded and correct exactly when it equals the question's class: +10 in the session and in the store under levers plus a streak step, or a streak reset |
| LeversGame.Session.NextQuestion | app/games/levers/page.tsx:63-73 | before the last question, advance and clear the answer; on the last, nothing changes |
| LeversGame.Session.Reset | app/games/levers/page.tsx:75-81 | difficulty cleared, index 0, answer cleared, score 0 |
| LeversGame.Session.Replay | app/games/levers/page.tsx:145-150 | difficulty kept, index 0, answer cleared, score 0 |
| LeversGame.ScoreBound | app/games/levers/page.tsx:22-73 | the session score is 10 per correct answer, a multiple of 10, at most 10·(index + 1), and the completed screen is never reached |
| MovementGame.Swap | app/games/movement/page.tsx:33 | the two positions are exchanged and every other one is kept |
| MovementGame.SwapPermutes | app/games/movement/page.tsx:33 | a swap keeps the multiset of options |
| MovementGame.ShuffleFrom | app/games/movement/page.tsx:31-34 | the remaining loop steps keep the length |
| MovementGame.Shuffled | app/games/movement/page.tsx:31-34 | the whole loop from the last position down to 1: same length and multiset as the options |
| MovementGame.ShufflePermutes | app/games/movement/page.tsx:30-35 | the Fisher–Yates loop yields a permutation of the options |
| MovementGame.ShuffleKeepsSettled | app/games/movement/page.tsx:31-34 | once step i is done, positions above i are never touched again |
| MovementGame.CopyToArray | app/games/movement/page.tsx:30 | a fresh array holding the options |
| MovementGame.ShuffleOptions | app/games/movement/page.tsx:28-36 | the in-place loop computes the specified shuffle, with the same length and multiset as the options |
| MovementGame.Session.constructor | app/games/movement/page.tsx:17-36 | the first question, score 0, its options shuffled |
| MovementGame.Session.HandleAnswer | app/games/movement/page.tsx:38-56 | ignored while feedback shows. Otherwise the chosen shuffled option's flag decides: +20 in the session and in the store under movement plus a streak step, or a streak reset |
| MovementGame.Session.NextQuestion | app/games/movement/page.tsx:28-68 | before the last question, advance, clear the answer and shuffle the new options; on the last, nothing changes |
| MovementGame.Session.Reset | app/games/movement/page.tsx:28-75 | index 0, answer cleared, score 0; the options are reshuffled only when the index changed |
| MovementGame.ScoreBound | app/games/movement/page.tsx:20-77 | the session score is a multiple of 20, at most 20·(index + 1); the shown options are a permutation of the question's; the completed screen is never reached |
| MatchingGame.InCategory | app/games/matching/page.tsx:68 | every pair of the category is kept exactly as often as it occurs in the data, and no other pair is kept |
| MatchingGame.RightTexts | app/games/matching/page.tsx:77 | the right texts of the pairs, position by position |
| MatchingGame.CorrectMatches | app/games/matching/page.tsx:271-277 | the expected matches of the left column, position by position |
| MatchingGame.Dealt | app/games/matching/page.tsx:69 | at most eight pairs are dealt |
| MatchingGame.LeftColumn | app/games/matching/page.tsx:69-76 | min(8, pairs) items whose left texts and ids are the dealt pairs' and whose expected matches are their right texts |
| MatchingGame.IndexOf | app/games/matching/page.tsx:91-92 | the first position holding the text, or −1 exactly when it is absent |
| MatchingGame.ArrayMove | app/games/matching/page.tsx:94 | moving keeps the length |
| MatchingGame.ArrayMoveElements | app/games/matching/page.tsx:94 | the moved text lands at the target, those between shift by one, the rest stay |
| MatchingGame.ArrayMovePermutes | app/games/matching/page.tsx:94 | moving keeps the multiset of texts |
| MatchingGame.Agreements | app/games/matching/page.tsx:100-106 | the count lies between 0 and the length of the left column |
| MatchingGame.AgreementsCountsIndices | app/games/matching/page.tsx:100-106 | the count is the number of positions where the expected match equals the right text |
| MatchingGame.FullAgreement | app/games/matching/page.tsx:100-111 | the count equals the left column's length exactly when every position agrees |
| MatchingGame.CountAgreements | app/games/matching/page.tsx:100-106 | the counting loop returns the number of agreeing positions |
| MatchingGame.Session.constructor | app/games/matching/page.tsx:50-54 | no category, empty columns, results hidden, score 0 |
| MatchingGame.Session.Deal | app/games/matching/page.tsx:66-146 | the left column holds min(8, category size) items of that category; the right column is a permutation of exactly their expected matches; results hidden and score 0 |
| MatchingGame.Session.SelectCategory | app/games/matching/page.tsx:66-83 | choosing a different category deals it; choosing the current one changes nothing |
| MatchingGame.Session.Back | app/games/matching/page.tsx:194 | the category is cleared and the columns are left as they are |
| MatchingGame.Session.Reset | app/games/matching/page.tsx:128-146 | with a category, deals it again; without one, nothing changes |
| MatchingGame.Session.HandleDragEnd | app/games/matching/page.tsx:85-96 | no target or equal indices leave the right column unchanged; otherwise the dragged text is moved to the target's position; the right column stays a permutation of the expected matches and the left column is never reordered |
| MatchingGame.Session.CheckAnswers | app/games/matching/page.tsx:98-120 | the score is the number of agreeing positions and results show. A full match adds 10 per pair under matching and a streak step; a partial one leaves the store unchanged |
| MatchingGame.Session.HideResults | app/games/matching/page.tsx:228 | "Tentar Novamente" hides the results and keeps both columns, the score and the category |
| MatchingGame.Session.Shuffle | app/games/matching/page.tsx:122-126 | the right column becomes another permutation of itself and results are hidden; the left column and score stay |
| MatchingGame.FullSetRewarded | app/games/matching/page.tsx:114-115 | totalScore and matchingScore grow by 10 per pair, the other game fields and XP stay, and the streak steps with bestStreak at least the new streak |
| MatchingGame.AwardFullSet | app/games/matching/page.tsx:114-115 | points under matching, then a streak step |
| MatchingGame.CheckTwice | app/games/matching/page.tsx:98-120 | checking a full match twice awards its points and a streak step twice |

## Left out

- Rendering is not modelled. That covers JSX, framer-motion animation, the dnd-kit sensors and drag overlay, Next.js links and images, and app/page.tsx and app/layout.tsx. It is presentation only.
- lib/sounds.ts is not part of this model. It holds the sounds and confetti: Web Audio with floating-point frequencies, and an asynchronous import.
- The tutorial flags kept in localStorage are left out, as is the store's persistence to storage. Both are I/O; the store is modelled as an in-memory object.
- The distribution of `Math.random` is not modelled. Shuffles are arbitrary permutations or swap indices supplied by the caller; bias and uniformity are out of scope.
- `toLowerCase` and `normalize('NFD')` are caller-supplied per-character tables. Two behaviours are therefore not captured: the context-dependent lowercasing of final sigma, and the canonical reordering of combining marks during decomposition.
- The whitespace set for `trim` is written out. It covers the ECMAScript WhiteSpace and LineTerminator characters, with the Space_Separator category as the current Unicode version lists it; later additions to that category are not tracked.
- Effect timing is not modelled. Each effect runs inside the handler that triggers it, so the render between a state change and its effect is not represented. On the movement page that covers the first render, with an empty option list, and the render after every `nextQuestion` or `reset` that changes the question index (app/games/movement/page.tsx:25, 36, 61, 71): it shows the new question with the previous question's shuffled options. On the matching page it is the render before the columns are dealt.
- The progress percentages on the levers and movement pages are not modelled. They are floating-point display values.
- Dafny characters are Unicode scalar values, so a lone UTF-16 surrogate, which a JavaScript string can hold, cannot be represented. Lengths are still counted in UTF-16 code units, as JavaScript counts them.
- Numbers are unbounded integers, so the 53-bit precision limit of JavaScript numbers is not modelled.
- lib/data.ts is not part of this model. It is static content. The model uses facts about it only as preconditions: every WhoAmI question has hints, and the WhoAmI, movement and levers banks are non-empty.
- check-duplicates.js is not part of this model. It is a development script that reads a file and prints duplicates.
- A matching item's `currentMatch` is left out. It is always null and never read.
- A matching item's id (`left-` followed by the pair id) is kept only as the pair id.
- `arrayMove` from the sortable-list library is not shown in the repository. ArrayMove models its documented behaviour: remove the element, then insert it at the target index.
- MatchingGame.Session.HandleDragEnd: requires both dragged and target texts to be in the right column. Drag events only report ids of rendered items, so the `indexOf` result −1 is never passed to `arrayMove`.
- WhoAmIGame.Session.CheckAnswer: does not require the answer to be hidden. The page only offers the input while it is, so the model also allows calls the page cannot make.
- LeversGame.Session.HandleAnswer: requires a chosen difficulty. The answer buttons exist only on the question screen.
