/** `score_value`: a word's points, plain or placed on the board's premium squares. */
module Scoring {
  import opened Wrappers
  import opened Config
  import opened AnchorModel

  /** The exceptions `score_value` can raise: a letter missing from the value table
      (`KeyError`), a key that does not unpack into (row, col, direction), and an unknown
      direction tag (`ValueError`). */
  datatype ScoreError = UnknownLetter(ch: char) | CannotUnpack | InvalidDirection(dir: string)

  /** Every letter of the word has a point value. */
  predicate Scorable(word: string) {
    forall k | 0 <= k < |word| :: word[k] in POINTS
  }

  /** Index of the first letter without a point value, or `|word|`. */
  function FirstUnknown(word: string): (k: nat)
    ensures k <= |word|
    ensures forall j | 0 <= j < k :: word[j] in POINTS
    ensures k < |word| ==> word[k] !in POINTS
  {
    if word == [] || word[0] !in POINTS then 0 else 1 + FirstUnknown(word[1..])
  }

  /** `sum([POINTS[letter] for letter in word])`: fails on the first letter without a value;
      otherwise every letter adds 1 to 10 points. */
  function BaseScore(word: string): (r: Result<int, ScoreError>)
    ensures r.Ok? <==> Scorable(word)
    ensures r.Ok? ==> |word| <= r.value <= 10 * |word|
    ensures r.Err? ==> r.error == UnknownLetter(word[FirstUnknown(word)])
  {
    PointsTable();
    if word == [] then Ok(0)
    else if word[0] !in POINTS then Err(UnknownLetter(word[0]))
    else match BaseScore(word[1..])
      case Ok(v) => Ok(POINTS[word[0]] + v)
      case Err(e) => Err(e)
  }

  /** The plain score of a concatenation is the sum of the plain scores of its parts, so the
      plain score does not depend on how the word is split. */
  lemma {:induction false} BaseScoreAdditive(a: string, b: string)
    requires Scorable(a) && Scorable(b)
    ensures BaseScore(a + b) == Ok(BaseScore(a).value + BaseScore(b).value)
  {
    if a != [] {
      assert (a + b)[0] == a[0] && (a + b)[1..] == a[1..] + b;
      BaseScoreAdditive(a[1..], b);
    } else {
      assert a + b == b;
    }
  }

  /** The board squares a placed word covers, from the anchor square along the direction. */
  function Tiles(row: int, col: int, horizontal: bool, n: nat): (t: seq<(int, int)>)
    ensures |t| == n
  {
    seq(n, i => if horizontal then (row, col + i) else (row + i, col))
  }

  /** Factor a square applies to the letter on it. */
  function LetterFactor(square: (int, int)): int {
    match ScoreMultiplier(square)
    case Some(TL) => 3
    case Some(DL) => 2
    case _ => 1
  }

  /** Factor a square applies to the whole word. */
  function WordFactorAt(square: (int, int)): int {
    match ScoreMultiplier(square)
    case Some(TW) => 3
    case Some(DW) => 2
    case _ => 1
  }

  /** Sum over the letters of base value times letter factor. */
  function LetterTotal(word: string, tiles: seq<(int, int)>): int
    requires |tiles| == |word| && Scorable(word)
  {
    if word == [] then 0
    else LetterTotal(word[..|word| - 1], tiles[..|tiles| - 1])
         + POINTS[word[|word| - 1]] * LetterFactor(tiles[|tiles| - 1])
  }

  /** Product of the word factors of the squares: double and triple word squares compound. */
  function WordFactor(tiles: seq<(int, int)>): int {
    if tiles == [] then 1 else WordFactor(tiles[..|tiles| - 1]) * WordFactorAt(tiles[|tiles| - 1])
  }

  function PlacedScore(word: string, tiles: seq<(int, int)>): Result<int, ScoreError>
    requires |tiles| == |word|
  {
    if Scorable(word) then Ok(LetterTotal(word, tiles) * WordFactor(tiles))
    else Err(UnknownLetter(word[FirstUnknown(word)]))
  }

  /** `score_value(word, anchor_position)` as a value; `None` stands for the omitted argument. */
  function Score(word: string, position: Option<Key>): Result<int, ScoreError> {
    match position
    case None => BaseScore(word)
    case Some(Fresh(_)) => Err(CannotUnpack)
    case Some(At(Position(_, _, None))) => Err(CannotUnpack)
    case Some(At(Position(row, col, Some(dir)))) =>
      if dir == HORIZONTAL_ANCHOR_DIR then PlacedScore(word, Tiles(row, col, true, |word|))
      else if dir == VERTICAL_ANCHOR_DIR then PlacedScore(word, Tiles(row, col, false, |word|))
      else Err(InvalidDirection(dir))
  }

  /** Scoring one more letter adds its letter score to the total and its word factor to the
      product. */
  lemma ScoreStep(word: string, tiles: seq<(int, int)>, i: nat)
    requires i < |word| == |tiles| && Scorable(word[..i]) && word[i] in POINTS
    ensures Scorable(word[..i + 1])
    ensures LetterTotal(word[..i + 1], tiles[..i + 1])
            == LetterTotal(word[..i], tiles[..i]) + POINTS[word[i]] * LetterFactor(tiles[i])
    ensures WordFactor(tiles[..i + 1]) == WordFactor(tiles[..i]) * WordFactorAt(tiles[i])
  {
    assert word[..i + 1][..i] == word[..i] && tiles[..i + 1][..i] == tiles[..i];
  }

  /** `score_value`: with a placement, walks the covered squares once, keeping the running
      letter total and the running word multiplier. */
  method ScoreValue(word: string, position: Option<Key>) returns (r: Result<int, ScoreError>)
    ensures r == Score(word, position)
  {
    if position.None? {
      return BaseScore(word);
    }
    if position.value.Fresh? || position.value.pos.dir.None? {
      return Err(CannotUnpack);
    }
    var row, col, dir := position.value.pos.row, position.value.pos.col, position.value.pos.dir.value;
    var tiles: seq<(int, int)>;
    if dir == HORIZONTAL_ANCHOR_DIR {
      tiles := seq(|word|, i => (row, col + i));
    } else if dir == VERTICAL_ANCHOR_DIR {
      tiles := seq(|word|, i => (row + i, col));
    } else {
      return Err(InvalidDirection(dir));
    }
    assert tiles == Tiles(row, col, dir == HORIZONTAL_ANCHOR_DIR, |word|);

    var wordMultiplier := 1;
    var totalPoints := 0;
    for i := 0 to |word|
      invariant Scorable(word[..i])
      invariant totalPoints == LetterTotal(word[..i], tiles[..i])
      invariant wordMultiplier == WordFactor(tiles[..i])
    {
      if word[i] !in POINTS {
        assert FirstUnknown(word) == i by {
          assert forall j | 0 <= j < i :: word[..i][j] == word[j];
        }
        return Err(UnknownLetter(word[i]));
      }
      var basePoints := POINTS[word[i]];
      var multiplier := ScoreMultiplier(tiles[i]);
      if multiplier == Some(TW) {
        wordMultiplier := wordMultiplier * 3;
      } else if multiplier == Some(DW) {
        wordMultiplier := wordMultiplier * 2;
      } else if multiplier == Some(TL) {
        basePoints := basePoints * 3;
      } else if multiplier == Some(DL) {
        basePoints := basePoints * 2;
      }
      totalPoints := totalPoints + basePoints;
      ScoreStep(word, tiles, i);
    }
    assert word[..|word|] == word && tiles[..|word|] == tiles;
    return Ok(totalPoints * wordMultiplier);
  }

  lemma {:induction false} WordFactorPositive(tiles: seq<(int, int)>)
    ensures WordFactor(tiles) >= 1
  {
    if tiles != [] {
      WordFactorPositive(tiles[..|tiles| - 1]);
    }
  }

  /** Letter premiums can only raise the letter total above the plain score. */
  lemma {:induction false} LetterTotalAtLeastBase(word: string, tiles: seq<(int, int)>)
    requires |tiles| == |word| && Scorable(word)
    ensures LetterTotal(word, tiles) >= BaseScore(word).value
  {
    if word != [] {
      var n := |word|;
      var front, last := word[..n - 1], word[n - 1..];
      assert word == front + last;
      BaseScoreAdditive(front, last);
      LetterTotalAtLeastBase(front, tiles[..n - 1]);
    }
  }

  /** A placed word never scores less than its plain letter values. */
  lemma PlacedScoreAtLeastBase(word: string, tiles: seq<(int, int)>)
    requires |tiles| == |word| && Scorable(word)
    ensures PlacedScore(word, tiles).Ok?
    ensures BaseScore(word).value <= PlacedScore(word, tiles).value
  {
    LetterTotalAtLeastBase(word, tiles);
    WordFactorPositive(tiles);
    ScaledAtLeast(LetterTotal(word, tiles), WordFactor(tiles));
  }

  lemma ScaledAtLeast(a: int, f: int)
    requires a >= 0 && f >= 1
    ensures a * f >= a
  {
    assert a * f == a + a * (f - 1);
  }

  lemma {:induction false} PlainSquaresTotals(word: string, tiles: seq<(int, int)>)
    requires |tiles| == |word| && Scorable(word)
    requires forall i | 0 <= i < |tiles| :: ScoreMultiplier(tiles[i]).None?
    ensures LetterTotal(word, tiles) == BaseScore(word).value && WordFactor(tiles) == 1
  {
    if word != [] {
      var n := |word|;
      var front, last := word[..n - 1], word[n - 1..];
      assert word == front + last;
      BaseScoreAdditive(front, last);
      PlainSquaresTotals(front, tiles[..n - 1]);
      assert ScoreMultiplier(tiles[n - 1]).None?;
    }
  }

  /** On squares without premiums a placed word scores exactly its plain value. */
  lemma PlainSquaresScoreBase(word: string, tiles: seq<(int, int)>)
    requires |tiles| == |word| && Scorable(word)
    requires forall i | 0 <= i < |tiles| :: ScoreMultiplier(tiles[i]).None?
    ensures PlacedScore(word, tiles) == BaseScore(word)
  {
    PlainSquaresTotals(word, tiles);
  }

  /** Two runs of squares with the same premiums give the same letter total and word factor. */
  lemma {:induction false} SamePremiumsSameScore(word: string, t1: seq<(int, int)>, t2: seq<(int, int)>)
    requires |t1| == |t2| == |word| && Scorable(word)
    requires forall i | 0 <= i < |t1| :: ScoreMultiplier(t1[i]) == ScoreMultiplier(t2[i])
    ensures LetterTotal(word, t1) == LetterTotal(word, t2)
    ensures WordFactor(t1) == WordFactor(t2)
  {
    if word != [] {
      var n := |word|;
      SamePremiumsSameScore(word[..n - 1], t1[..n - 1], t2[..n - 1]);
    }
  }

  /** Playing a word across from (row, col) scores the same as playing it down from
      (col, row), because the premium layout is symmetric about the diagonal. */
  lemma TransposedPlacementSameScore(word: string, row: int, col: int)
    ensures Score(word, Some(At(Position(row, col, Some(HORIZONTAL_ANCHOR_DIR)))))
         == Score(word, Some(At(Position(col, row, Some(VERTICAL_ANCHOR_DIR)))))
  {
    var across, down := Tiles(row, col, true, |word|), Tiles(col, row, false, |word|);
    forall i | 0 <= i < |word|
      ensures ScoreMultiplier(across[i]) == ScoreMultiplier(down[i])
    {
      MultipliersSymmetric(row, col + i);
    }
    if Scorable(word) {
      SamePremiumsSameScore(word, across, down);
    }
  }

  /** "cat" played across from the centre star: (3 + 1 + 1) x 2. */
  lemma CentreCatScore()
    ensures Score("cat", Some(At(Position(8, 8, Some(HORIZONTAL_ANCHOR_DIR))))) == Ok(10)
  {
    var t := Tiles(8, 8, true, 3);
    assert t == [(8, 8), (8, 9), (8, 10)];
    assert t[..2] == [(8, 8), (8, 9)] && t[..2][..1] == [(8, 8)];
    assert "cat"[..2] == "ca" && "cat"[..2][..1] == "c";
    assert Scorable("cat");
    assert LetterTotal("c", [(8, 8)]) == 3;
    assert LetterTotal("ca", t[..2]) == 4;
    assert LetterTotal("cat", t) == 5;
    assert WordFactor([(8, 8)]) == 2;
    assert WordFactor(t[..2]) == 2;
    assert WordFactor(t) == 2;
  }
}
