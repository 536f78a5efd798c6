/** `generate_anchors_from_slice`, its helper `_get_prefix`, and `get_anchors`: the scan of
    each board line for the places a new word may attach to the tiles already played. */
module Anchors {
  import opened Wrappers
  import opened Strings
  import opened Config
  import opened AnchorModel
  import opened Matching

  /** A played tile of a line: the stripped cell text and the cell's index. */
  datatype Tile = Tile(letter: string, index: nat)

  /** A cell holds a tile when its text is not blank, that is, when it does not strip to
      the empty string (`OccupiedIffStripped`). */
  predicate Occupied(cell: string) {
    !AllSpace(cell)
  }

  lemma OccupiedIffStripped(cell: string)
    ensures Occupied(cell) <==> Strip(cell) != ""
  {
    StripBlank(cell);
  }

  /** Every cell holds at most one character, as the board's one-character input cells
      guarantee. */
  predicate WellFormedLine(arr: seq<string>) {
    forall i | 0 <= i < |arr| :: |arr[i]| <= 1
  }

  function Max(a: int, b: int): int {
    if a >= b then a else b
  }

  /** `[pos[1] for pos in positions]`. */
  function TileIndices(pos: seq<Tile>): (r: seq<nat>)
    ensures |r| == |pos| && forall k | 0 <= k < |pos| :: r[k] == pos[k].index
  {
    seq(|pos|, k requires 0 <= k < |pos| => pos[k].index)
  }

  /** The tiles of a line, in ascending index order. */
  function Positions(arr: seq<string>): (pos: seq<Tile>)
    ensures forall k | 0 <= k < |pos| :: pos[k].index < |arr|
  {
    if arr == [] then []
    else
      var n := |arr| - 1;
      Positions(arr[..n]) + (if Occupied(arr[n]) then [Tile(Strip(arr[n]), n)] else [])
  }

  /** The tiles come in the order of their cells. */
  lemma {:induction false} PositionsAscending(arr: seq<string>)
    ensures forall j, k | 0 <= j < k < |Positions(arr)| :: Positions(arr)[j].index < Positions(arr)[k].index
  {
    if arr != [] {
      PositionsAscending(arr[..|arr| - 1]);
    }
  }

  /** Each tile carries its cell's stripped, non-blank text. */
  lemma {:induction false} PositionsLetters(arr: seq<string>)
    ensures forall k | 0 <= k < |Positions(arr)| ::
              Positions(arr)[k].letter == Strip(arr[Positions(arr)[k].index]) && Positions(arr)[k].letter != ""
              && Occupied(arr[Positions(arr)[k].index])
  {
    if arr != [] {
      var n := |arr| - 1;
      var front, pos := Positions(arr[..n]), Positions(arr);
      PositionsLetters(arr[..n]);
      OccupiedIffStripped(arr[n]);
      forall k | 0 <= k < |pos|
        ensures pos[k].letter == Strip(arr[pos[k].index]) && pos[k].letter != "" && Occupied(arr[pos[k].index])
      {
        if k < |front| {
          assert pos[k] == front[k];
          assert arr[..n][front[k].index] == arr[front[k].index];
        } else {
          assert pos[k] == Tile(Strip(arr[n]), n);
        }
      }
    }
  }

  /** The tiles are exactly the occupied cells. */
  lemma {:induction false} PositionsAreOccupiedCells(arr: seq<string>, i: int)
    requires 0 <= i < |arr|
    ensures Occupied(arr[i]) <==> i in TileIndices(Positions(arr))
  {
    var n := |arr| - 1;
    var front := Positions(arr[..n]);
    var extra := if Occupied(arr[n]) then [Tile(Strip(arr[n]), n)] else [];
    assert Positions(arr) == front + extra;
    assert TileIndices(front + extra) == TileIndices(front) + TileIndices(extra);
    if i < n {
      PositionsAreOccupiedCells(arr[..n], i);
      assert arr[..n][i] == arr[i];
      assert i !in TileIndices(extra);
    } else {
      assert forall k | 0 <= k < |front| :: TileIndices(front)[k] < n;
      assert i !in TileIndices(front);
      assert Occupied(arr[n]) ==> TileIndices(extra) == [n];
    }
  }

  /** What `_get_prefix(arr, i)` returns: the cells of the occupied run that ends just before
      index `i`, collected right to left and the whole string then reversed. */
  function PrefixRun(arr: seq<string>, i: nat): string
    requires i <= |arr|
  {
    if i > 0 && Occupied(arr[i - 1]) then PrefixRun(arr, i - 1) + Reverse(arr[i - 1]) else ""
  }

  /** `_get_prefix`: walks left from `i` while the cell before is occupied, appending each
      cell, and reverses the result. */
  method GetPrefix(arr: seq<string>, i: nat) returns (prefix: string)
    requires i <= |arr|
    ensures prefix == PrefixRun(arr, i)
  {
    var collected := "";
    var j: nat := i;
    while j > 0 && Strip(arr[j - 1]) != ""
      invariant j <= i
      invariant PrefixRun(arr, i) == PrefixRun(arr, j) + Reverse(collected)
    {
      OccupiedIffStripped(arr[j - 1]);
      ReverseAppend(collected, arr[j - 1]);
      collected := collected + arr[j - 1];
      j := j - 1;
    }
    if j > 0 {
      OccupiedIffStripped(arr[j - 1]);
    }
    prefix := Reverse(collected);
  }

  /** The `anchor_position` of the tile at `tileIndex` of line `lineIndex`, 1-based; a row scan
      gives (line, tile) and any other scan (tile, line). */
  function AnchorPosition(lineType: string, lineIndex: int, tileIndex: int, dir: Option<string>): Position {
    if lineType == "row" then Position(lineIndex + 1, tileIndex + 1, dir)
    else Position(tileIndex + 1, lineIndex + 1, dir)
  }

  /** The direction tag of a tail anchor: across for a row scan, down otherwise. */
  function DirectionTag(lineType: string): string {
    if lineType == "row" then HORIZONTAL_ANCHOR_DIR else VERTICAL_ANCHOR_DIR
  }

  /** Space before tile `p1`: up to the line start for the first tile, otherwise the gap to the
      previous tile less one separating cell. */
  function PrefixPermitted(pos: seq<Tile>, p1: nat): int
    requires p1 < |pos|
  {
    if p1 == 0 then pos[p1].index else Max(pos[p1].index - pos[p1 - 1].index - 2, 0)
  }

  /** The relative anchor standing for a prefix run, if there is one. */
  function PrefixAnchor(prefix: string): seq<RelativeAnchor> {
    if prefix != "" then [RelativeAnchor(prefix, -|prefix|)] else []
  }

  /** Relative anchors of the pair (p1, p2): the tiles p1+1 .. p2 at their offsets from p1. */
  function PairTiles(pos: seq<Tile>, p1: nat, p2: nat): (r: seq<RelativeAnchor>)
    requires p1 < |pos| && p2 < |pos|
    ensures |r| == Max(p2 - p1, 0)
  {
    seq(Max(p2 - p1, 0), k requires 0 <= k < Max(p2 - p1, 0) =>
      RelativeAnchor(pos[p1 + 1 + k].letter, pos[p1 + 1 + k].index - pos[p1].index))
  }

  /** The anchor the pair of tiles (p1, p2) yields in the double scan, if any, given the prefix
      run that ends just before tile p1. */
  function InnerAnchor(pos: seq<Tile>, lineType: string, lineIndex: int, p1: nat, p2: nat,
                       prefix: string): Option<Anchor>
    requires p1 < |pos| && p2 < |pos|
  {
    var a, b := pos[p1].index, pos[p2].index;
    var space := Max(b - a - 2, 0);
    if space != 0 && a + space !in TileIndices(pos) then
      Some(Anchor(
        position := Some(AnchorPosition(lineType, lineIndex, a, None)),
        letters := Some(pos[p1].letter),
        prefixRequired := None,
        prefixPermitted := Some(PrefixPermitted(pos, p1)),
        postfixRequired := None,
        postfixPermitted := Some(space),
        relativeAnchors := Some(PairTiles(pos, p1, p2) + PrefixAnchor(prefix))))
    else None
  }

  function OptionToSeq<T>(o: Option<T>): seq<T> {
    if o.Some? then [o.value] else []
  }

  /** Anchors of base tile p1 with p2 ranging over [0, n). */
  function InnerAnchorsFor(pos: seq<Tile>, lineType: string, lineIndex: int, p1: nat, n: nat,
                           prefix: string): seq<Anchor>
    requires p1 < |pos| && n <= |pos|
  {
    if n == 0 then []
    else InnerAnchorsFor(pos, lineType, lineIndex, p1, n - 1, prefix)
         + OptionToSeq(InnerAnchor(pos, lineType, lineIndex, p1, n - 1, prefix))
  }

  /** Anchors of the double scan with base tiles p1 in [0, m). */
  function InnerAnchorsUpTo(arr: seq<string>, pos: seq<Tile>, lineType: string, lineIndex: int,
                            m: nat): seq<Anchor>
    requires pos == Positions(arr) && m <= |pos|
  {
    if m == 0 then []
    else InnerAnchorsUpTo(arr, pos, lineType, lineIndex, m - 1)
         + InnerAnchorsFor(pos, lineType, lineIndex, m - 1, |pos|, PrefixRun(arr, pos[m - 1].index))
  }

  /** The open-tail anchor: present when the last tile is not in the line's last cell. */
  function TailAnchor(arr: seq<string>, pos: seq<Tile>, lineType: string, lineIndex: int): Option<Anchor>
    requires pos == Positions(arr)
  {
    if |pos| > 0 && pos[|pos| - 1].index < |arr| - 1 then
      var last := pos[|pos| - 1];
      Some(Anchor(
        position := Some(AnchorPosition(lineType, lineIndex, last.index, Some(DirectionTag(lineType)))),
        letters := Some(last.letter),
        prefixRequired := None,
        prefixPermitted := Some(PrefixPermitted(pos, |pos| - 1)),
        postfixRequired := None,
        postfixPermitted := Some(|arr| - last.index - 1),
        relativeAnchors := Some(PrefixAnchor(PrefixRun(arr, last.index)))))
    else None
  }

  /** All anchors of one line: the double scan, then the tail anchor. */
  function SliceAnchors(arr: seq<string>, lineType: string, lineIndex: int): seq<Anchor> {
    var pos := Positions(arr);
    InnerAnchorsUpTo(arr, pos, lineType, lineIndex, |pos|) + OptionToSeq(TailAnchor(arr, pos, lineType, lineIndex))
  }

  /** The first loop of `generate_anchors_from_slice`: the (letter, index) pair of every
      occupied cell. */
  method CollectPositions(arr: seq<string>) returns (positions: seq<Tile>)
    ensures positions == Positions(arr)
  {
    positions := [];
    for i := 0 to |arr|
      invariant positions == Positions(arr[..i])
    {
      assert arr[..i + 1][..i] == arr[..i];
      OccupiedIffStripped(arr[i]);
      var letter := Strip(arr[i]);
      if letter != "" {
        positions := positions + [Tile(letter, i)];
      }
    }
    assert arr[..|arr|] == arr;
  }

  /** The innermost loop of the double scan: a relative anchor for each tile p1+1 .. p2. */
  method PairRelativeAnchors(positions: seq<Tile>, p1: nat, p2: nat)
    returns (relAnchors: seq<RelativeAnchor>)
    requires p1 < |positions| && p2 < |positions|
    ensures relAnchors == PairTiles(positions, p1, p2)
  {
    relAnchors := [];
    var numRelAnchors := Max(p2 - p1, 0);
    for i := 1 to numRelAnchors + 1
      invariant relAnchors == PairTiles(positions, p1, p2)[..i - 1]
    {
      relAnchors := relAnchors + [RelativeAnchor(positions[p1 + i].letter,
                                                 positions[p1 + i].index - positions[p1].index)];
    }
  }

  /** One pass of the `while p2` loop: the anchor of the pair (p1, p2), if any. */
  method PairAnchor(positions: seq<Tile>, lineType: string, lineIndex: int,
                    p1: nat, p2: nat, prefixPermitted: int, prefix: string)
    returns (anchor: Option<Anchor>)
    requires p1 < |positions| && p2 < |positions|
    requires prefixPermitted == PrefixPermitted(positions, p1)
    ensures anchor == InnerAnchor(positions, lineType, lineIndex, p1, p2, prefix)
  {
    var playableSpace := Max(positions[p2].index - positions[p1].index - 2, 0);
    var relAnchors := PairRelativeAnchors(positions, p1, p2);
    if playableSpace != 0 && positions[p1].index + playableSpace !in TileIndices(positions) {
      if prefix != "" {
        relAnchors := relAnchors + [RelativeAnchor(prefix, -|prefix|)];
      }
      assert relAnchors == PairTiles(positions, p1, p2) + PrefixAnchor(prefix);
      anchor := Some(Anchor(
        position := Some(AnchorPosition(lineType, lineIndex, positions[p1].index, None)),
        letters := Some(positions[p1].letter),
        prefixRequired := None,
        prefixPermitted := Some(prefixPermitted),
        postfixRequired := None,
        postfixPermitted := Some(playableSpace),
        relativeAnchors := Some(relAnchors)));
    } else {
      anchor := None;
    }
  }

  /** The final check of `generate_anchors_from_slice`: the anchor after the last tile. */
  method OpenTailAnchor(arr: seq<string>, positions: seq<Tile>, lineType: string, lineIndex: int)
    returns (anchor: Option<Anchor>)
    requires positions == Positions(arr)
    ensures anchor == TailAnchor(arr, positions, lineType, lineIndex)
  {
    anchor := None;
    if |positions| > 0 && positions[|positions| - 1].index < |arr| - 1 {
      var last := positions[|positions| - 1];
      var prefixPermitted := if |positions| == 1 then last.index - 0
                             else Max(last.index - positions[|positions| - 2].index - 2, 0);
      var prefix := GetPrefix(arr, last.index);
      var relAnchors := if prefix != "" then [RelativeAnchor(prefix, -|prefix|)] else [];
      var playableSpace := |arr| - last.index - 1;
      anchor := Some(Anchor(
        position := Some(AnchorPosition(lineType, lineIndex, last.index, Some(DirectionTag(lineType)))),
        letters := Some(last.letter),
        prefixRequired := None,
        prefixPermitted := Some(prefixPermitted),
        postfixRequired := None,
        postfixPermitted := Some(playableSpace),
        relativeAnchors := Some(relAnchors)));
    }
  }

  /** The `while p2` loop for base tile p1: the anchors of every pair (p1, p2) in turn. */
  method BaseTileAnchors(arr: seq<string>, positions: seq<Tile>, lineType: string, lineIndex: int,
                         p1: nat) returns (found: seq<Anchor>)
    requires p1 < |positions| && positions[p1].index <= |arr|
    ensures found == InnerAnchorsFor(positions, lineType, lineIndex, p1, |positions|,
                                     PrefixRun(arr, positions[p1].index))
  {
    found := [];
    var p2 := 0;
    var prefixPermitted := PrefixPermitted(positions, p1);
    var prefix := GetPrefix(arr, positions[p1].index);
    while p2 < |positions|
      invariant p2 <= |positions|
      invariant found == InnerAnchorsFor(positions, lineType, lineIndex, p1, p2, prefix)
    {
      var anchor := PairAnchor(positions, lineType, lineIndex, p1, p2, prefixPermitted, prefix);
      found := found + OptionToSeq(anchor);
      p2 := p2 + 1;
    }
  }

  /** `generate_anchors_from_slice(arr, (lineType, lineIndex))`. */
  method GenerateAnchorsFromSlice(arr: seq<string>, lineType: string, lineIndex: int)
    returns (anchors: seq<Anchor>)
    ensures anchors == SliceAnchors(arr, lineType, lineIndex)
  {
    var positions := CollectPositions(arr);
    anchors := [];
    for p1 := 0 to |positions|
      invariant anchors == InnerAnchorsUpTo(arr, positions, lineType, lineIndex, p1)
    {
      var found := BaseTileAnchors(arr, positions, lineType, lineIndex, p1);
      anchors := anchors + found;
    }

    var tail := OpenTailAnchor(arr, positions, lineType, lineIndex);
    anchors := anchors + OptionToSeq(tail);
  }

  /** Cells strictly between two consecutive tiles, and before the first tile, are empty. */
  lemma GapBeforeTileIsEmpty(arr: seq<string>, p: nat, k: int)
    requires p < |Positions(arr)|
    requires (if p == 0 then 0 else Positions(arr)[p - 1].index + 1) <= k < Positions(arr)[p].index
    ensures !Occupied(arr[k])
  {
    var pos := Positions(arr);
    PositionsAreOccupiedCells(arr, k);
    PositionsAscending(arr);
    forall q | 0 <= q < |pos|
      ensures TileIndices(pos)[q] != k
    {
      if q < p {
        assert q < p - 1 ==> pos[q].index < pos[p - 1].index;
      } else {
        assert q > p ==> pos[p].index < pos[q].index;
      }
    }
  }

  /** An inner anchor is emitted for the pair (p1, p2) exactly when tile p2 lies after tile p1,
      at least three cells further on, and the cell two before tile p2 is empty. */
  lemma InnerAnchorExistsIff(arr: seq<string>, pos: seq<Tile>, lineType: string, lineIndex: int,
                             p1: nat, p2: nat, prefix: string)
    requires pos == Positions(arr) && p1 < |pos| && p2 < |pos|
    ensures InnerAnchor(pos, lineType, lineIndex, p1, p2, prefix).Some?
            <==> p1 < p2 && pos[p2].index - pos[p1].index >= 3 && !Occupied(arr[pos[p2].index - 2])
  {
    PositionsAscending(arr);
    var a: int, b: int := pos[p1].index, pos[p2].index;
    if b - a >= 3 {
      assert Max(b - a - 2, 0) == b - a - 2;
      PositionsAreOccupiedCells(arr, b - 2);
    }
  }

  /** The relative anchor that stands for tile p2 of an inner anchor sits at offset b - a,
      beyond the anchor's own letter plus its b - a - 2 permitted postfix cells. */
  lemma InnerAnchorOverreaches(arr: seq<string>, pos: seq<Tile>, lineType: string, lineIndex: int,
                               p1: nat, p2: nat, prefix: string)
    requires WellFormedLine(arr) && pos == Positions(arr) && p1 < |pos| && p2 < |pos|
    requires InnerAnchor(pos, lineType, lineIndex, p1, p2, prefix).Some?
    ensures var anchor := InnerAnchor(pos, lineType, lineIndex, p1, p2, prefix).value;
            var rels := anchor.relativeAnchors.value;
            0 <= p2 - p1 - 1 < |rels|
            && rels[p2 - p1 - 1] == RelativeAnchor(pos[p2].letter, pos[p2].index - pos[p1].index)
            && anchor.postfixPermitted == Some(pos[p2].index - pos[p1].index - 2)
            && rels[p2 - p1 - 1].offset + |rels[p2 - p1 - 1].text|
               > |anchor.letters.value| + anchor.postfixPermitted.value
  {
    InnerAnchorExistsIff(arr, pos, lineType, lineIndex, p1, p2, prefix);
    var a := pos[p1].index;
    PositionsLetters(arr);
    assert |pos[p1].letter| <= |arr[a]| == 1;
    var pairs := PairTiles(pos, p1, p2);
    assert (pairs + PrefixAnchor(prefix))[p2 - p1 - 1] == pairs[p2 - p1 - 1];
  }

  /** No word fits an inner anchor of a line of one-character cells, whatever the required
      bounds and the permitted prefix: the tile p2 it demands lies past the permitted postfix. */
  lemma InnerAnchorNeverFits(arr: seq<string>, pos: seq<Tile>, lineType: string, lineIndex: int,
                             p1: nat, p2: nat, prefix: string,
                             word: string, preReq: int, prePerm: int, postReq: int)
    requires WellFormedLine(arr) && pos == Positions(arr) && p1 < |pos| && p2 < |pos|
    requires InnerAnchor(pos, lineType, lineIndex, p1, p2, prefix).Some?
    ensures var anchor := InnerAnchor(pos, lineType, lineIndex, p1, p2, prefix).value;
            !Fits(word, anchor.letters.value, anchor.relativeAnchors.value,
                  preReq, prePerm, postReq, anchor.postfixPermitted.value)
  {
    var anchor := InnerAnchor(pos, lineType, lineIndex, p1, p2, prefix).value;
    InnerAnchorOverreaches(arr, pos, lineType, lineIndex, p1, p2, prefix);
    ReachBeyondPostfixNeverFits(word, anchor.letters.value, anchor.relativeAnchors.value,
                                preReq, prePerm, postReq, anchor.postfixPermitted.value, p2 - p1 - 1);
  }

  /** Every cell after the last tile is empty. */
  lemma AfterLastTileEmpty(arr: seq<string>, k: int)
    requires |Positions(arr)| > 0
    requires Positions(arr)[|Positions(arr)| - 1].index < k < |arr|
    ensures !Occupied(arr[k])
  {
    var pos := Positions(arr);
    var last := pos[|pos| - 1].index;
    PositionsAreOccupiedCells(arr, k);
    PositionsAscending(arr);
    forall q | 0 <= q < |pos|
      ensures TileIndices(pos)[q] <= last
    {
      assert q < |pos| - 1 ==> pos[q].index < last;
    }
  }

  /** A line without tiles has no occupied cell. */
  lemma NoTilesAllEmpty(arr: seq<string>)
    requires |Positions(arr)| == 0
    ensures forall i | 0 <= i < |arr| :: !Occupied(arr[i])
  {
    forall i | 0 <= i < |arr|
      ensures !Occupied(arr[i])
    {
      PositionsAreOccupiedCells(arr, i);
    }
  }

  /** The tail anchor is emitted exactly when the line holds a tile and its last cell is empty. */
  lemma TailAnchorExistsIff(arr: seq<string>, lineType: string, lineIndex: int)
    ensures TailAnchor(arr, Positions(arr), lineType, lineIndex).Some?
            <==> (exists i | 0 <= i < |arr| :: Occupied(arr[i])) && !Occupied(arr[|arr| - 1])
  {
    var pos := Positions(arr);
    if |pos| > 0 {
      var last := pos[|pos| - 1].index;
      PositionsAreOccupiedCells(arr, last);
      assert TileIndices(pos)[|pos| - 1] == last;
      if last < |arr| - 1 {
        AfterLastTileEmpty(arr, |arr| - 1);
      }
    } else {
      NoTilesAllEmpty(arr);
    }
  }

  /** The tail anchor's postfix is exactly the run of empty cells after the last tile, its
      letters are that tile's, and it alone carries the scan's direction tag. */
  lemma TailAnchorSpan(arr: seq<string>, lineType: string, lineIndex: int)
    requires TailAnchor(arr, Positions(arr), lineType, lineIndex).Some?
    ensures var pos := Positions(arr);
            var last := pos[|pos| - 1].index;
            var anchor := TailAnchor(arr, pos, lineType, lineIndex).value;
            Occupied(arr[last])
            && (forall k | last < k < |arr| :: !Occupied(arr[k]))
            && anchor.postfixPermitted == Some(|arr| - last - 1)
            && anchor.letters == Some(Strip(arr[last]))
            && anchor.position.value.dir == Some(DirectionTag(lineType))
  {
    PositionsLetters(arr);
    forall k | Positions(arr)[|Positions(arr)| - 1].index < k < |arr|
      ensures !Occupied(arr[k])
    {
      AfterLastTileEmpty(arr, k);
    }
  }

  /** Where the occupied run that ends just before index `i` begins. */
  function RunStart(arr: seq<string>, i: nat): (s: nat)
    requires i <= |arr|
    ensures s <= i
    ensures forall k | s <= k < i :: Occupied(arr[k])
    ensures s == 0 || !Occupied(arr[s - 1])
  {
    if i > 0 && Occupied(arr[i - 1]) then RunStart(arr, i - 1) else i
  }

  /** The concatenation of a sequence of cells. */
  function Flatten(cells: seq<string>): string {
    if cells == [] then "" else Flatten(cells[..|cells| - 1]) + cells[|cells| - 1]
  }

  lemma FlattenSnoc(arr: seq<string>, s: nat, i: nat)
    requires s < i <= |arr|
    ensures Flatten(arr[s..i]) == Flatten(arr[s..i - 1]) + arr[i - 1]
  {
    var run := arr[s..i];
    assert run[..|run| - 1] == arr[s..i - 1];
  }

  /** On a line of one-character cells, the prefix `_get_prefix` reports is the occupied run
      just before index `i`, read left to right, one letter per cell. */
  lemma {:induction false} PrefixRunIsRun(arr: seq<string>, i: nat)
    requires WellFormedLine(arr) && i <= |arr|
    ensures PrefixRun(arr, i) == Flatten(arr[RunStart(arr, i)..i])
  {
    if i > 0 && Occupied(arr[i - 1]) {
      PrefixRunIsRun(arr, i - 1);
      PrefixRunStep(arr, i);
    } else {
      assert arr[i..i] == [];
    }
  }

  /** One more occupied cell extends both the prefix run and the run of cells by that cell. */
  lemma PrefixRunStep(arr: seq<string>, i: nat)
    requires WellFormedLine(arr) && 0 < i <= |arr| && Occupied(arr[i - 1])
    requires PrefixRun(arr, i - 1) == Flatten(arr[RunStart(arr, i - 1)..i - 1])
    ensures PrefixRun(arr, i) == Flatten(arr[RunStart(arr, i)..i])
  {
    var start := RunStart(arr, i - 1);
    assert |arr[i - 1]| == 1 by {
      assert |Strip(arr[i - 1])| <= |arr[i - 1]| <= 1;
    }
    ReverseSingle(arr[i - 1]);
    FlattenSnoc(arr, start, i);
  }

  /** On a line of one-character cells, the prefix run has one letter per cell of the run, so
      its relative anchor sits exactly at the run's first cell. */
  lemma {:induction false} PrefixRunLength(arr: seq<string>, i: nat)
    requires WellFormedLine(arr) && i <= |arr|
    ensures |PrefixRun(arr, i)| == i - RunStart(arr, i)
  {
    if i > 0 && Occupied(arr[i - 1]) {
      PrefixRunLength(arr, i - 1);
      assert |Reverse(arr[i - 1])| == 1;
    }
  }

  /** The tile list of a line with exactly one occupied cell. */
  lemma SingleTilePositions(arr: seq<string>, t: nat)
    requires t < |arr| && Occupied(arr[t])
    requires forall k | 0 <= k < |arr| && k != t :: !Occupied(arr[k])
    ensures Positions(arr) == [Tile(Strip(arr[t]), t)]
  {
    var pos := Positions(arr);
    PositionsAreOccupiedCells(arr, t);
    PositionsLetters(arr);
    PositionsAscending(arr);
    assert |pos| >= 1;
    assert Occupied(arr[pos[0].index]) && Occupied(arr[pos[|pos| - 1].index]);
    assert pos[0].index == t && pos[|pos| - 1].index == t;
    assert |pos| == 1;
  }

  /** A line with exactly one tile, not in its last cell, yields exactly one anchor: the tail
      anchor, with the whole space before the tile as prefix and the space after it as postfix. */
  lemma SingleTileLine(arr: seq<string>, t: nat, lineType: string, lineIndex: int)
    requires t < |arr| - 1 && Occupied(arr[t])
    requires forall k | 0 <= k < |arr| && k != t :: !Occupied(arr[k])
    ensures SliceAnchors(arr, lineType, lineIndex) == [Anchor(
              position := Some(AnchorPosition(lineType, lineIndex, t, Some(DirectionTag(lineType)))),
              letters := Some(Strip(arr[t])),
              prefixRequired := None,
              prefixPermitted := Some(t),
              postfixRequired := None,
              postfixPermitted := Some(|arr| - t - 1),
              relativeAnchors := Some([]))]
  {
    SingleTilePositions(arr, t);
    var pos := Positions(arr);
    assert InnerAnchor(pos, lineType, lineIndex, 0, 0, PrefixRun(arr, t)).None?;
    assert InnerAnchorsFor(pos, lineType, lineIndex, 0, 1, PrefixRun(arr, t)) == [];
    assert InnerAnchorsUpTo(arr, pos, lineType, lineIndex, 1) == [];
    assert PrefixRun(arr, t) == "";
  }

  /** A 15-cell line whose only tile is at index 7 gives one anchor, with 7 free cells on
      each side. */
  lemma SingleTileAtSeven()
    ensures var arr := seq(MAX_GRID, k => if k == 7 then "q" else "");
            var anchors := SliceAnchors(arr, "row", 0);
            |anchors| == 1
            && anchors[0].prefixPermitted == Some(7) && anchors[0].postfixPermitted == Some(7)
            && anchors[0].position == Some(Position(1, 8, Some(HORIZONTAL_ANCHOR_DIR)))
  {
    var arr := seq(MAX_GRID, k => if k == 7 then "q" else "");
    StripSingle(arr[7]);
    SingleTileLine(arr, 7, "row", 0);
  }

  /** An anchor has a relative anchor that ends beyond its letters plus its permitted postfix,
      so no word can ever fit it. */
  predicate Overreaching(a: Anchor) {
    a.letters.Some? && a.postfixPermitted.Some? && a.relativeAnchors.Some?
    && exists k | 0 <= k < |a.relativeAnchors.value| ::
         a.relativeAnchors.value[k].offset + |a.relativeAnchors.value[k].text|
         > |a.letters.value| + a.postfixPermitted.value
  }

  /** What every anchor of a scan of line `lineIndex` (of `len` cells) looks like: it sits on
      that line, 1-based, carries no direction or the scan's own, and, when it carries none,
      overreaches. */
  predicate Scanned(a: Anchor, lineType: string, lineIndex: int, len: int) {
    a.position.Some?
    && (var p := a.position.value;
        (if lineType == "row" then p.row == lineIndex + 1 && 1 <= p.col <= len
         else p.col == lineIndex + 1 && 1 <= p.row <= len)
        && (p.dir.None? || p.dir == Some(DirectionTag(lineType)))
        && (p.dir.None? ==> Overreaching(a)))
  }

  lemma {:induction false} InnerAnchorsForScanned(arr: seq<string>, pos: seq<Tile>, lineType: string,
                                                  lineIndex: int, p1: nat, n: nat, prefix: string)
    requires WellFormedLine(arr) && pos == Positions(arr) && p1 < |pos| && n <= |pos|
    ensures forall a | a in InnerAnchorsFor(pos, lineType, lineIndex, p1, n, prefix) ::
              Scanned(a, lineType, lineIndex, |arr|)
  {
    if n > 0 {
      InnerAnchorsForScanned(arr, pos, lineType, lineIndex, p1, n - 1, prefix);
      var o := InnerAnchor(pos, lineType, lineIndex, p1, n - 1, prefix);
      if o.Some? {
        InnerAnchorOverreaches(arr, pos, lineType, lineIndex, p1, n - 1, prefix);
        assert Overreaching(o.value);
      }
    }
  }

  /** Two runs of anchors of the same line scan make one. */
  lemma ScannedAppend(left: seq<Anchor>, right: seq<Anchor>, lineType: string, lineIndex: int, len: int)
    requires forall a | a in left :: Scanned(a, lineType, lineIndex, len)
    requires forall a | a in right :: Scanned(a, lineType, lineIndex, len)
    ensures forall a | a in left + right :: Scanned(a, lineType, lineIndex, len)
  {
  }

  /** An anchor produced by the scan of one of the lines 0 .. n-1. */
  ghost predicate ScannedIn(a: Anchor, lines: seq<seq<string>>, lineType: string, n: nat)
    requires n <= |lines|
  {
    exists i | 0 <= i < n :: Scanned(a, lineType, i, |lines[i]|)
  }

  lemma {:induction false} InnerAnchorsUpToScanned(arr: seq<string>, pos: seq<Tile>, lineType: string,
                                                   lineIndex: int, m: nat)
    requires WellFormedLine(arr) && pos == Positions(arr) && m <= |pos|
    ensures forall a | a in InnerAnchorsUpTo(arr, pos, lineType, lineIndex, m) ::
              Scanned(a, lineType, lineIndex, |arr|)
  {
    if m > 0 {
      var left := InnerAnchorsUpTo(arr, pos, lineType, lineIndex, m - 1);
      var right := InnerAnchorsFor(pos, lineType, lineIndex, m - 1, |pos|, PrefixRun(arr, pos[m - 1].index));
      InnerAnchorsUpToScanned(arr, pos, lineType, lineIndex, m - 1);
      InnerAnchorsForScanned(arr, pos, lineType, lineIndex, m - 1, |pos|, PrefixRun(arr, pos[m - 1].index));
      assert InnerAnchorsUpTo(arr, pos, lineType, lineIndex, m) == left + right;
      ScannedAppend(left, right, lineType, lineIndex, |arr|);
    }
  }

  /** Every anchor of a scan of a line of one-character cells lies on that line, and the
      direction-less ones (the double scan's) can never be fitted. */
  lemma SliceAnchorsScanned(arr: seq<string>, lineType: string, lineIndex: int)
    requires WellFormedLine(arr)
    ensures forall a | a in SliceAnchors(arr, lineType, lineIndex) :: Scanned(a, lineType, lineIndex, |arr|)
  {
    var pos := Positions(arr);
    InnerAnchorsUpToScanned(arr, pos, lineType, lineIndex, |pos|);
  }

  /** `zip(*grid)`: the columns of the grid, as many as its shortest row has cells. */
  function Transpose(grid: seq<seq<string>>): (cols: seq<seq<string>>)
    ensures grid == [] ==> cols == []
    ensures grid != [] ==> |cols| == MinLength(grid)
    ensures forall j | 0 <= j < |cols| ::
              |cols[j]| == |grid| && (forall i | 0 <= i < |grid| :: j < |grid[i]| && cols[j][i] == grid[i][j])
  {
    if grid == [] then []
    else seq(MinLength(grid), j requires 0 <= j < MinLength(grid) =>
               seq(|grid|, i requires 0 <= i < |grid| => grid[i][j]))
  }

  /** The length of the shortest row. */
  function MinLength(grid: seq<seq<string>>): (n: nat)
    requires grid != []
    ensures forall i | 0 <= i < |grid| :: n <= |grid[i]|
    ensures exists i | 0 <= i < |grid| :: n == |grid[i]|
  {
    if |grid| == 1 then |grid[0]|
    else
      var rest := MinLength(grid[1..]);
      assert forall i | 1 <= i < |grid| :: grid[i] == grid[1..][i - 1];
      if |grid[0]| <= rest then |grid[0]| else rest
  }

  /** The anchors of lines 0 .. n-1, in line order. */
  function LinesAnchors(lines: seq<seq<string>>, lineType: string, n: nat): seq<Anchor>
    requires n <= |lines|
  {
    if n == 0 then [] else LinesAnchors(lines, lineType, n - 1) + SliceAnchors(lines[n - 1], lineType, n - 1)
  }

  /** The anchors of the whole grid: every row's, then every column's. */
  function GridAnchors(grid: seq<seq<string>>): seq<Anchor> {
    LinesAnchors(grid, "row", |grid|) + LinesAnchors(Transpose(grid), "col", |Transpose(grid)|)
  }

  /** One loop of `get_anchors`: the anchors of each line in turn, the line's index in the
      scan tagging them. */
  method ScanLines(lines: seq<seq<string>>, lineType: string) returns (anchors: seq<Anchor>)
    ensures anchors == LinesAnchors(lines, lineType, |lines|)
  {
    anchors := [];
    for i := 0 to |lines|
      invariant anchors == LinesAnchors(lines, lineType, i)
    {
      var found := GenerateAnchorsFromSlice(lines[i], lineType, i);
      anchors := anchors + found;
    }
  }

  /** `get_anchors(grid)`: the row scan, then the scan of the transposed grid. */
  method GetAnchors(grid: seq<seq<string>>) returns (anchors: seq<Anchor>)
    ensures anchors == GridAnchors(grid)
  {
    anchors := ScanLines(grid, "row");
    var cols := Transpose(grid);
    var colAnchors := ScanLines(cols, "col");
    anchors := anchors + colAnchors;
  }

  /** The board a grid stands for: MAX_GRID rows of MAX_GRID one-character cells. */
  predicate Board(grid: seq<seq<string>>) {
    |grid| == MAX_GRID && forall i | 0 <= i < |grid| :: |grid[i]| == MAX_GRID && WellFormedLine(grid[i])
  }

  /** Every anchor of the scan of lines 0 .. n-1 comes out of the scan of one of those lines. */
  lemma {:induction false} LinesAnchorsFromLines(lines: seq<seq<string>>, lineType: string, n: nat)
    requires n <= |lines|
    ensures forall a | a in LinesAnchors(lines, lineType, n) ::
              exists i | 0 <= i < n :: a in SliceAnchors(lines[i], lineType, i)
  {
    if n > 0 {
      LinesAnchorsFromLines(lines, lineType, n - 1);
    }
  }

  /** Every anchor of the scan of one of the lines 0 .. n-1 is among the anchors of all of them. */
  lemma {:induction false} LinesAnchorsCoverLines(lines: seq<seq<string>>, lineType: string, n: nat, i: nat)
    requires i < n <= |lines|
    ensures forall a | a in SliceAnchors(lines[i], lineType, i) :: a in LinesAnchors(lines, lineType, n)
  {
    var left, right := LinesAnchors(lines, lineType, n - 1), SliceAnchors(lines[n - 1], lineType, n - 1);
    assert LinesAnchors(lines, lineType, n) == left + right;
    if i < n - 1 {
      LinesAnchorsCoverLines(lines, lineType, n - 1, i);
      assert forall a | a in left :: a in left + right;
    } else {
      assert forall a | a in right :: a in left + right;
    }
  }

  lemma LinesAnchorsScanned(lines: seq<seq<string>>, lineType: string, n: nat)
    requires n <= |lines|
    requires forall i | 0 <= i < |lines| :: WellFormedLine(lines[i])
    ensures forall a | a in LinesAnchors(lines, lineType, n) :: ScannedIn(a, lines, lineType, n)
  {
    LinesAnchorsFromLines(lines, lineType, n);
    forall i | 0 <= i < n
      ensures forall a | a in SliceAnchors(lines[i], lineType, i) :: Scanned(a, lineType, i, |lines[i]|)
    {
      SliceAnchorsScanned(lines[i], lineType, i);
    }
  }

  /** On a board, row anchors sit at 1-based (row, col) squares of the board with a horizontal
      tag or none, column anchors likewise with a vertical tag or none, and every anchor without
      a tag can never be fitted. */
  lemma GridAnchorsOnBoard(grid: seq<seq<string>>)
    requires Board(grid)
    ensures |Transpose(grid)| == MAX_GRID
    ensures forall a | a in LinesAnchors(grid, "row", |grid|) ::
              OnBoard(a) && (a.position.value.dir.None? || a.position.value.dir == Some(HORIZONTAL_ANCHOR_DIR))
    ensures forall a | a in LinesAnchors(Transpose(grid), "col", |Transpose(grid)|) ::
              OnBoard(a) && (a.position.value.dir.None? || a.position.value.dir == Some(VERTICAL_ANCHOR_DIR))
    ensures forall a | a in GridAnchors(grid) ::
              OnBoard(a) && (a.position.value.dir.None? ==> Overreaching(a))
              && (a.position.value.dir.Some? ==>
                    a.position.value.dir.value == HORIZONTAL_ANCHOR_DIR || a.position.value.dir.value == VERTICAL_ANCHOR_DIR)
  {
    TransposeBoard(grid);
    LinesAnchorsOnBoard(grid, "row");
    LinesAnchorsOnBoard(Transpose(grid), "col");
  }

  /** The columns of a board are MAX_GRID lines of MAX_GRID one-character cells too. */
  lemma TransposeBoard(grid: seq<seq<string>>)
    requires Board(grid)
    ensures |Transpose(grid)| == MAX_GRID
    ensures forall j | 0 <= j < |Transpose(grid)| ::
              |Transpose(grid)[j]| == MAX_GRID && WellFormedLine(Transpose(grid)[j])
  {
    var cols := Transpose(grid);
    assert MinLength(grid) == MAX_GRID;
    forall j | 0 <= j < |cols|
      ensures WellFormedLine(cols[j])
    {
      assert forall i | 0 <= i < |cols[j]| :: cols[j][i] == grid[i][j];
    }
  }

  /** The anchors of a scan of MAX_GRID lines of MAX_GRID one-character cells sit on the board,
      carry the scan's direction tag or none, and overreach when they carry none. */
  lemma LinesAnchorsOnBoard(lines: seq<seq<string>>, lineType: string)
    requires |lines| == MAX_GRID
    requires forall i | 0 <= i < |lines| :: |lines[i]| == MAX_GRID && WellFormedLine(lines[i])
    ensures forall a | a in LinesAnchors(lines, lineType, |lines|) ::
              OnBoard(a) && (a.position.value.dir.None? || a.position.value.dir == Some(DirectionTag(lineType)))
              && (a.position.value.dir.None? ==> Overreaching(a))
  {
    LinesAnchorsScanned(lines, lineType, |lines|);
    forall a | a in LinesAnchors(lines, lineType, |lines|)
      ensures OnBoard(a)
    {
      var i :| 0 <= i < |lines| && Scanned(a, lineType, i, |lines[i]|);
    }
  }

  /** An anchor at a 1-based square of the board. */
  predicate OnBoard(a: Anchor) {
    a.position.Some? && 1 <= a.position.value.row <= MAX_GRID && 1 <= a.position.value.col <= MAX_GRID
  }
}
