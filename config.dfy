/** The constant tables of config.py: letter values, the premium squares of the
    standard 15 x 15 board, the board size, the two placement-direction tags and
    the session-state key of a board cell. */
module Config {
  import opened Wrappers
  import opened Strings

  /** Base point value of each letter tile. */
  const POINTS: map<char, int> := map[
    'a' := 1, 'b' := 3, 'c' := 3, 'd' := 2, 'e' := 1, 'f' := 4, 'g' := 2, 'h' := 4, 'i' := 1,
    'j' := 8, 'k' := 5, 'l' := 1, 'm' := 3, 'n' := 1, 'o' := 1, 'p' := 3, 'q' := 10, 'r' := 1,
    's' := 1, 't' := 1, 'u' := 1, 'v' := 4, 'w' := 4, 'x' := 8, 'y' := 4, 'z' := 10]

  /** The four premium-square tags: triple/double word, triple/double letter. */
  datatype Multiplier = TW | DW | TL | DL

  /** `SCORE_MULTIPLIERS.get(square)`: the premium tag of a 1-based (row, column) square,
      or `None` for a plain square. The dictionary is written as a lookup so that the
      verifier can reason about all 61 entries at once. */
  function ScoreMultiplier(square: (int, int)): Option<Multiplier> {
    match square
    // TW
    case (1, 1) => Some(TW)
    case (1, 8) => Some(TW)
    case (1, 15) => Some(TW)
    case (8, 1) => Some(TW)
    case (8, 15) => Some(TW)
    case (15, 1) => Some(TW)
    case (15, 8) => Some(TW)
    case (15, 15) => Some(TW)
    // DW
    case (2, 2) => Some(DW)
    case (3, 3) => Some(DW)
    case (4, 4) => Some(DW)
    case (5, 5) => Some(DW)
    case (14, 14) => Some(DW)
    case (13, 13) => Some(DW)
    case (12, 12) => Some(DW)
    case (11, 11) => Some(DW)
    case (2, 14) => Some(DW)
    case (3, 13) => Some(DW)
    case (4, 12) => Some(DW)
    case (5, 11) => Some(DW)
    case (14, 2) => Some(DW)
    case (13, 3) => Some(DW)
    case (12, 4) => Some(DW)
    case (11, 5) => Some(DW)
    case (8, 8) => Some(DW)
    // TL
    case (2, 6) => Some(TL)
    case (2, 10) => Some(TL)
    case (6, 2) => Some(TL)
    case (6, 6) => Some(TL)
    case (6, 10) => Some(TL)
    case (6, 14) => Some(TL)
    case (10, 2) => Some(TL)
    case (10, 6) => Some(TL)
    case (10, 10) => Some(TL)
    case (10, 14) => Some(TL)
    case (14, 6) => Some(TL)
    case (14, 10) => Some(TL)
    // DL
    case (1, 4) => Some(DL)
    case (1, 12) => Some(DL)
    case (3, 7) => Some(DL)
    case (3, 9) => Some(DL)
    case (4, 1) => Some(DL)
    case (4, 8) => Some(DL)
    case (4, 15) => Some(DL)
    case (7, 3) => Some(DL)
    case (7, 7) => Some(DL)
    case (7, 9) => Some(DL)
    case (7, 13) => Some(DL)
    case (8, 4) => Some(DL)
    case (8, 12) => Some(DL)
    case (9, 3) => Some(DL)
    case (9, 7) => Some(DL)
    case (9, 9) => Some(DL)
    case (9, 13) => Some(DL)
    case (12, 1) => Some(DL)
    case (12, 8) => Some(DL)
    case (12, 15) => Some(DL)
    case (13, 7) => Some(DL)
    case (13, 9) => Some(DL)
    case (15, 4) => Some(DL)
    case (15, 12) => Some(DL)
    case _ => None
  }

  const MAX_GRID: int := 15

  const HORIZONTAL_ANCHOR_DIR: string := "played horizontally"
  const VERTICAL_ANCHOR_DIR: string := "played vertically"

  /** The letter table covers exactly the 26 lower-case letters, each worth 1 to 10 points. */
  lemma PointsTable()
    ensures forall ch :: ch in POINTS <==> 'a' <= ch <= 'z'
    ensures forall ch | ch in POINTS :: 1 <= POINTS[ch] <= 10
  {
  }

  /** Every premium square lies on the 15 x 15 board (1-based). */
  lemma MultipliersOnBoard(r: int, c: int)
    ensures ScoreMultiplier((r, c)).Some? ==> 1 <= r <= MAX_GRID && 1 <= c <= MAX_GRID
  {
  }

  /** The premium layout is symmetric about the main diagonal. */
  lemma MultipliersSymmetric(r: int, c: int)
    ensures ScoreMultiplier((r, c)) == ScoreMultiplier((c, r))
  {
  }

  /** The centre star is a double-word square and the four corners are triple-word squares. */
  lemma CentreAndCorners()
    ensures ScoreMultiplier((8, 8)) == Some(DW)
    ensures ScoreMultiplier((1, 1)) == Some(TW) && ScoreMultiplier((1, 15)) == Some(TW)
    ensures ScoreMultiplier((15, 1)) == Some(TW) && ScoreMultiplier((15, 15)) == Some(TW)
  {
  }

  /** The two direction tags differ, so a placement is horizontal or vertical, never both. */
  lemma DirectionTagsDistinct()
    ensures HORIZONTAL_ANCHOR_DIR != VERTICAL_ANCHOR_DIR
  {
    assert HORIZONTAL_ANCHOR_DIR[7] != VERTICAL_ANCHOR_DIR[7];
  }

  /** The session-state key of the board cell at (row, col): "R<row>C<col>". */
  function TileKey(row: int, col: int): (k: string)
    ensures |k| == 2 + |IntToString(row)| + |IntToString(col)|
    ensures k[0] == 'R' && k[1 + |IntToString(row)|] == 'C'
  {
    "R" + IntToString(row) + "C" + IntToString(col)
  }

  /** Index of the first `sep` in `s`, or `|s|` when there is none. */
  function FirstIndexOf(s: string, sep: char): (i: nat)
    ensures i <= |s|
  {
    if s == [] || s[0] == sep then 0 else 1 + FirstIndexOf(s[1..], sep)
  }

  lemma {:induction false} FirstIndexOfSeparator(x: string, sep: char, y: string)
    requires sep !in x
    ensures FirstIndexOf(x + [sep] + y, sep) == |x|
  {
    if x != [] {
      assert (x + [sep] + y)[1..] == x[1..] + [sep] + y;
      FirstIndexOfSeparator(x[1..], sep, y);
    }
  }

  /** Cutting a string at a separator that occurs in neither left part recovers both parts. */
  lemma SplitAtSeparator(x: string, y: string, x': string, y': string, sep: char)
    requires sep !in x && sep !in x'
    requires x + [sep] + y == x' + [sep] + y'
    ensures x == x' && y == y'
  {
    var s := x + [sep] + y;
    FirstIndexOfSeparator(x, sep, y);
    FirstIndexOfSeparator(x', sep, y');
    assert x == s[..|x|] == x';
    assert y == s[|x| + 1..] == y';
  }

  /** Behind the leading `R`, a key is the row, a `C` and the column. */
  lemma TileKeyTail(row: int, col: int)
    ensures TileKey(row, col)[1..] == IntToString(row) + ['C'] + IntToString(col)
  {
    assert TileKey(row, col) == ['R'] + (IntToString(row) + ['C'] + IntToString(col));
  }

  /** Distinct cells have distinct keys, so no two board cells share session state. */
  lemma TileKeyInjective(r1: int, c1: int, r2: int, c2: int)
    requires TileKey(r1, c1) == TileKey(r2, c2)
    ensures r1 == r2 && c1 == c2
  {
    TileKeyTail(r1, c1);
    TileKeyTail(r2, c2);
    SplitAtSeparator(IntToString(r1), IntToString(c1), IntToString(r2), IntToString(c2), 'C');
    IntToStringInjective(r1, r2);
    IntToStringInjective(c1, c2);
  }
}
