/** The anchor records exchanged between the board scanner and the solver. */
module AnchorModel {
  import opened Wrappers

  /** An `anchor_position` tuple: the 1-based (row, col) of the anchor's tile, and, for the
      tail anchor of a line only, the placement-direction tag as a third component. */
  datatype Position = Position(row: int, col: int, dir: Option<string>)

  /** The key under which the solver groups an anchor's words: the anchor's position, or, for an
      anchor without one, a fresh token standing for the `uuid4()` the solver draws. */
  datatype Key = At(pos: Position) | Fresh(id: nat)

  /** A `(substring, offset)` pair: `text` must sit in a candidate word at the anchor's start
      plus `offset` (the offset may be negative). */
  datatype RelativeAnchor = RelativeAnchor(text: string, offset: int)

  /** An anchor dictionary. Every key is optional, as in the source: the scanner never sets the
      two `required` bounds, and the solver supplies defaults for whatever is missing. */
  datatype Anchor = Anchor(
    position: Option<Position>,
    letters: Option<string>,
    prefixRequired: Option<int>,
    prefixPermitted: Option<int>,
    postfixRequired: Option<int>,
    postfixPermitted: Option<int>,
    relativeAnchors: Option<seq<RelativeAnchor>>)
}
