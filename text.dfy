/**
 * The answer validator of lib/utils.ts: text normalisation (lowercase, canonical
 * decomposition, removal of combining diacritical marks, trimming) and the exact /
 * partial-credit comparison built on it.
 */
module TextNormalizer {

  /**
   * The Unicode data behind `toLowerCase` and `normalize('NFD')`, kept uninterpreted:
   * each character is mapped to the string it lowercases to, and to the string it
   * decomposes into.
   */
  datatype UnicodeTables = UnicodeTables(lower: char -> string, decompose: char -> string)

  /** Applies a per-character mapping and concatenates the pieces. */
  function MapChars(f: char -> string, s: string): string
  {
    if s == [] then [] else f(s[0]) + MapChars(f, s[1..])
  }

  /** A character of the Combining Diacritical Marks block, U+0300 to U+036F. */
  predicate IsMark(c: char)
  {
    '\U{0300}' <= c <= '\U{036F}'
  }

  predicate NoMarks(s: string)
  {
    forall i :: 0 <= i < |s| ==> !IsMark(s[i])
  }

  /**
   * The characters `String.prototype.trim` removes: ECMAScript WhiteSpace (tab, vertical
   * tab, form feed, no-break space, zero-width no-break space and the Space_Separator
   * category) and LineTerminator (line feed, carriage return, U+2028, U+2029).
   */
  predicate IsWhiteSpace(c: char)
  {
    c == '\U{0009}' || c == '\U{000B}' || c == '\U{000C}' || c == '\U{FEFF}'
    || c == ' ' || c == '\U{00A0}' || c == '\U{1680}' || ('\U{2000}' <= c <= '\U{200A}')
    || c == '\U{202F}' || c == '\U{205F}' || c == '\U{3000}'
    || c == '\U{000A}' || c == '\U{000D}' || c == '\U{2028}' || c == '\U{2029}'
  }

  /** No whitespace at either end. */
  predicate Trimmed(s: string)
  {
    s == [] || (!IsWhiteSpace(s[0]) && !IsWhiteSpace(s[|s| - 1]))
  }

  /** `replace(/[̀-ͯ]/g, '')`: deletes every combining mark, keeps the rest in order. */
  function StripMarks(s: string): (r: string)
    ensures NoMarks(r)
    ensures |r| <= |s|
    ensures forall c :: c in r <==> c in s && !IsMark(c)
    ensures NoMarks(s) ==> r == s
  {
    if s == [] then []
    else if IsMark(s[0]) then StripMarks(s[1..])
    else [s[0]] + StripMarks(s[1..])
  }

  /** Each non-mark character is kept as often as it occurs, and every mark is dropped. */
  lemma {:induction false} StripMarksCounts(s: string)
    ensures forall c :: multiset(StripMarks(s))[c] == if IsMark(c) then 0 else multiset(s)[c]
  {
    if s != [] {
      assert s == [s[0]] + s[1..];
      StripMarksCounts(s[1..]);
    }
  }

  /** Stripping works piece by piece, so the kept characters stay in their order. */
  lemma {:induction false} StripMarksConcat(a: string, b: string)
    ensures StripMarks(a + b) == StripMarks(a) + StripMarks(b)
  {
    if a == [] {
      assert a + b == b;
    } else {
      assert (a + b)[0] == a[0] && (a + b)[1..] == a[1..] + b;
      StripMarksConcat(a[1..], b);
    }
  }

  /** Removes leading whitespace. */
  function TrimStart(s: string): (r: string)
    ensures |r| <= |s| && r == s[|s| - |r|..]
    ensures forall i :: 0 <= i < |s| - |r| ==> IsWhiteSpace(s[i])
    ensures r != [] ==> !IsWhiteSpace(r[0])
  {
    if s != [] && IsWhiteSpace(s[0]) then TrimStart(s[1..]) else s
  }

  /** Removes trailing whitespace. */
  function TrimEnd(s: string): (r: string)
    ensures |r| <= |s| && r == s[..|r|]
    ensures forall i :: |r| <= i < |s| ==> IsWhiteSpace(s[i])
    ensures r != [] ==> !IsWhiteSpace(r[|r| - 1])
  {
    if s != [] && IsWhiteSpace(s[|s| - 1]) then TrimEnd(s[..|s| - 1]) else s
  }

  /** `r` is `s[i..j]`, and everything outside that range is whitespace. */
  predicate TrimmedAt(s: string, r: string, i: int, j: int)
  {
    0 <= i <= j <= |s| && r == s[i..j]
    && (forall k :: 0 <= k < i ==> IsWhiteSpace(s[k]))
    && (forall k :: j <= k < |s| ==> IsWhiteSpace(s[k]))
  }

  /**
   * A prefix `r` of a suffix `t` of `s`, with only whitespace dropped on each side,
   * sits in `s` between two runs of whitespace.
   */
  lemma TrimBounds(s: string, t: string, r: string)
    requires |t| <= |s| && t == s[|s| - |t|..]
    requires forall k :: 0 <= k < |s| - |t| ==> IsWhiteSpace(s[k])
    requires |r| <= |t| && r == t[..|r|]
    requires forall k :: |r| <= k < |t| ==> IsWhiteSpace(t[k])
    ensures TrimmedAt(s, r, |s| - |t|, |s| - |t| + |r|)
  {
    var i := |s| - |t|;
    assert r == s[i..i + |r|];
    forall k | i + |r| <= k < |s|
      ensures IsWhiteSpace(s[k])
    {
      assert s[k] == t[k - i];
    }
  }

  /** A piece of `s` holds no character more often than `s` does. */
  lemma PieceChars(s: string, r: string, i: int, j: int)
    requires TrimmedAt(s, r, i, j)
    ensures multiset(r) <= multiset(s)
  {
    assert s == s[..i] + r + s[j..];
  }

  /** Trimming a text with no whitespace at either end drops nothing. */
  lemma TrimmedUnchanged(s: string)
    ensures Trimmed(s) ==> TrimEnd(TrimStart(s)) == s
  {
    if Trimmed(s) && s != [] {
      assert TrimStart(s) == s;
    }
  }

  /** Trimming the start and then the end leaves a piece of `s` between two runs of whitespace. */
  lemma TrimSpec(s: string)
    ensures exists i, j :: TrimmedAt(s, TrimEnd(TrimStart(s)), i, j)
    ensures multiset(TrimEnd(TrimStart(s))) <= multiset(s)
    ensures Trimmed(s) ==> TrimEnd(TrimStart(s)) == s
  {
    var t := TrimStart(s);
    var r := TrimEnd(t);
    var i := |s| - |t|;
    TrimBounds(s, t, r);
    PieceChars(s, r, i, i + |r|);
    TrimmedUnchanged(s);
  }

  /** `trim()`: a contiguous piece of the input with no whitespace at either end. */
  function Trim(s: string): (r: string)
    ensures Trimmed(r)
    ensures exists i, j :: TrimmedAt(s, r, i, j)
    ensures multiset(r) <= multiset(s)
    ensures Trimmed(s) ==> r == s
  {
    TrimSpec(s);
    TrimEnd(TrimStart(s))
  }

  /** normalizeText: lowercase, NFD, strip combining marks, trim, in that order. */
  function Normalize(t: UnicodeTables, s: string): (r: string)
    ensures NoMarks(r)
    ensures Trimmed(r)
  {
    Trim(StripMarks(MapChars(t.decompose, MapChars(t.lower, s))))
  }

  /** textsMatch: equal after normalisation. */
  predicate TextsMatch(t: UnicodeTables, a: string, b: string)
  {
    Normalize(t, a) == Normalize(t, b)
  }

  /** `String.prototype.includes`: `needle` occurs in `hay` at some position. */
  function Includes(hay: string, needle: string): (r: bool)
    ensures needle <= hay ==> r
    ensures r ==> |needle| <= |hay|
  {
    needle <= hay || (hay != [] && Includes(hay[1..], needle))
  }

  /**
   * The length JavaScript reports for a string: UTF-16 code units, two for each
   * character outside the Basic Multilingual Plane.
   */
  function Utf16Length(s: string): (n: nat)
    ensures |s| <= n <= 2 * |s|
    ensures (forall k :: 0 <= k < |s| ==> s[k] <= '\U{FFFF}') ==> n == |s|
  {
    if s == [] then 0 else (if s[0] <= '\U{FFFF}' then 1 else 2) + Utf16Length(s[1..])
  }

  /** The positions of `s` holding a character outside the Basic Multilingual Plane. */
  ghost function AstralPositions(s: string): set<int>
  {
    set k | 0 <= k < |s| && s[k] > '\U{FFFF}'
  }

  /** Lengths add up over a concatenation. */
  lemma {:induction false} Utf16LengthAppend(a: string, b: string)
    ensures Utf16Length(a + b) == Utf16Length(a) + Utf16Length(b)
  {
    if a == [] {
      assert a + b == b;
    } else {
      assert (a + b)[0] == a[0] && (a + b)[1..] == a[1..] + b;
      Utf16LengthAppend(a[1..], b);
    }
  }

  /** The JavaScript length is one unit per character plus one per astral character. */
  lemma {:induction false} Utf16LengthCounts(s: string)
    ensures Utf16Length(s) == |s| + |AstralPositions(s)|
  {
    if s != [] {
      var n := |s| - 1;
      var init := s[..n];
      assert s == init + [s[n]];
      Utf16LengthAppend(init, [s[n]]);
      assert [s[n]][1..] == [];
      Utf16LengthCounts(init);
      if s[n] > '\U{FFFF}' {
        assert AstralPositions(s) == AstralPositions(init) + {n};
      } else {
        assert AstralPositions(s) == AstralPositions(init);
      }
    }
  }

  /** `needle` occurs in `hay` starting at index `i`. */
  ghost predicate OccursAt(hay: string, needle: string, i: int)
  {
    0 <= i && i + |needle| <= |hay| && hay[i..i + |needle|] == needle
  }

  /** textContains: the normalised first text contains the normalised second. */
  predicate TextContains(t: UnicodeTables, a: string, b: string)
  {
    Includes(Normalize(t, a), Normalize(t, b))
  }

  /**
   * isValidAnswer: an exact match, or a normalised guess longer than 3 UTF-16 code
   * units found inside the normalised answer.
   */
  predicate IsValidAnswer(t: UnicodeTables, guess: string, answer: string)
  {
    var g := Normalize(t, guess);
    var a := Normalize(t, answer);
    if g == a then true
    else if Utf16Length(g) > 3 && Includes(a, g) then true
    else false
  }

  // ---------------------------------------------------------------------------
  // Properties

  /** An occurrence at index `i` is found by `includes`. */
  lemma {:induction false} OccursImpliesIncludes(hay: string, needle: string, i: int)
    requires OccursAt(hay, needle, i)
    ensures Includes(hay, needle)
    decreases i
  {
    if i == 0 {
      assert needle == hay[..|needle|];
    } else {
      assert hay[1..][i - 1..i - 1 + |needle|] == hay[i..i + |needle|];
      OccursImpliesIncludes(hay[1..], needle, i - 1);
    }
  }

  /** What `includes` finds occurs at some index. */
  lemma {:induction false} IncludesImpliesOccurs(hay: string, needle: string) returns (i: int)
    requires Includes(hay, needle)
    ensures OccursAt(hay, needle, i)
  {
    if needle <= hay {
      i := 0;
    } else {
      var j := IncludesImpliesOccurs(hay[1..], needle);
      assert hay[1..][j..j + |needle|] == hay[j + 1..j + 1 + |needle|];
      i := j + 1;
    }
  }

  /** `includes` is exactly "occurs at some index". */
  lemma IncludesIffOccurs(hay: string, needle: string)
    ensures Includes(hay, needle) <==> exists i :: OccursAt(hay, needle, i)
  {
    if Includes(hay, needle) {
      var i := IncludesImpliesOccurs(hay, needle);
    }
    forall i | OccursAt(hay, needle, i) ensures Includes(hay, needle) {
      OccursImpliesIncludes(hay, needle, i);
    }
  }

  /** A string every character of which both tables leave alone passes through MapChars unchanged. */
  lemma {:induction false} MapCharsIdentity(f: char -> string, s: string)
    requires forall c :: c in s ==> f(c) == [c]
    ensures MapChars(f, s) == s
  {
    if s != [] {
      MapCharsIdentity(f, s[1..]);
    }
  }

  /** A table that maps every character to a single character keeps the length. */
  lemma {:induction false} MapCharsLength(f: char -> string, s: string)
    requires forall c :: |f(c)| == 1
    ensures |MapChars(f, s)| == |s|
  {
    if s != [] {
      MapCharsLength(f, s[1..]);
    }
  }

  /**
   * normalizeText is idempotent on inputs whose normal form the tables leave alone
   * (lowercase characters without a decomposition).
   */
  lemma NormalizeIdempotent(t: UnicodeTables, s: string)
    requires forall c :: c in Normalize(t, s) ==> t.lower(c) == [c] && t.decompose(c) == [c]
    ensures Normalize(t, Normalize(t, s)) == Normalize(t, s)
  {
    var n := Normalize(t, s);
    MapCharsIdentity(t.lower, n);
    MapCharsIdentity(t.decompose, n);
  }

  /** textsMatch is an equivalence: reflexive, symmetric and transitive. */
  lemma TextsMatchEquivalence(t: UnicodeTables, a: string, b: string, c: string)
    ensures TextsMatch(t, a, a)
    ensures TextsMatch(t, a, b) ==> TextsMatch(t, b, a)
    ensures TextsMatch(t, a, b) && TextsMatch(t, b, c) ==> TextsMatch(t, a, c)
  {
  }

  /** Texts that match contain each other. */
  lemma TextsMatchImpliesContains(t: UnicodeTables, a: string, b: string)
    requires TextsMatch(t, a, b)
    ensures TextContains(t, a, b) && TextContains(t, b, a)
  {
  }

  /**
   * isValidAnswer accepts exactly when the normalised guess equals the normalised
   * answer, or is longer than 3 UTF-16 code units and occurs in it at some index.
   */
  lemma ValidAnswerCharacterisation(t: UnicodeTables, guess: string, answer: string)
    ensures IsValidAnswer(t, guess, answer) <==>
      Normalize(t, guess) == Normalize(t, answer)
      || (Utf16Length(Normalize(t, guess)) > 3 && exists i :: OccursAt(Normalize(t, answer), Normalize(t, guess), i))
  {
    IncludesIffOccurs(Normalize(t, answer), Normalize(t, guess));
  }

  /** Every text is a valid answer to itself. */
  lemma ValidAnswerReflexive(t: UnicodeTables, x: string)
    ensures IsValidAnswer(t, x, x)
  {
  }

  /** A normalised guess of at most 3 code units is accepted only if it equals the normalised answer. */
  lemma ShortGuessNeedsExactMatch(t: UnicodeTables, guess: string, answer: string)
    requires Utf16Length(Normalize(t, guess)) <= 3
    ensures IsValidAnswer(t, guess, answer) <==> Normalize(t, guess) == Normalize(t, answer)
  {
  }

  /**
   * Every accepted guess is contained in the answer after normalisation, so a guess
   * whose normal form is longer than the answer's is always rejected.
   */
  lemma AcceptedGuessIsContained(t: UnicodeTables, guess: string, answer: string)
    ensures IsValidAnswer(t, guess, answer) ==> TextContains(t, answer, guess)
    ensures |Normalize(t, guess)| > |Normalize(t, answer)| ==> !IsValidAnswer(t, guess, answer)
  {
  }

  /**
   * The empty guess (the Enter key submits it) is accepted only by an answer whose
   * normal form is empty.
   */
  lemma EmptyGuess(t: UnicodeTables, answer: string)
    ensures IsValidAnswer(t, "", answer) <==> Normalize(t, answer) == ""
  {
    assert MapChars(t.lower, "") == "";
    assert MapChars(t.decompose, "") == "";
  }

  /** normalizeText returns a trimmed, mark-free text unchanged when the tables leave its characters alone. */
  lemma NormalizeFixes(t: UnicodeTables, s: string)
    requires forall c :: c in s ==> t.lower(c) == [c] && t.decompose(c) == [c]
    requires NoMarks(s) && Trimmed(s)
    ensures Normalize(t, s) == s
  {
    MapCharsIdentity(t.lower, s);
    MapCharsIdentity(t.decompose, s);
  }

  /** The tables of a text with nothing to lowercase or decompose. */
  function Unchanged(c: char): string
  {
    [c]
  }

  /**
   * Two characters outside the Basic Multilingual Plane are four code units, so such a
   * guess is long enough to be accepted as a piece of the answer.
   */
  lemma AstralGuessIsLongEnough()
    ensures IsValidAnswer(UnicodeTables(Unchanged, Unchanged), "\U{1F600}\U{1F600}", "x\U{1F600}\U{1F600}")
  {
    var t := UnicodeTables(Unchanged, Unchanged);
    var g := "\U{1F600}\U{1F600}";
    var a := "x\U{1F600}\U{1F600}";
    assert NoMarks(g) && Trimmed(g);
    assert NoMarks(a) && Trimmed(a);
    NormalizeFixes(t, g);
    NormalizeFixes(t, a);
    assert Utf16Length(g[1..]) == 2;
    assert Utf16Length(g) == 4;
    assert a[1..] == g;
    assert Includes(a[1..], g);
  }
}
