/**
  The eight gradient directions and the sides of the box each one names.
*/
module Direction {

  /** `Direction`; `Bottom` is the `#[default]` variant. */
  datatype Direction = Bottom | BottomLeft | BottomRight | Top | TopLeft | TopRight | Left | Right

  const DefaultDirection: Direction := Bottom

  /** A side of the box, as CSS names it in `to <side-or-corner>`. */
  datatype Side = TopSide | BottomSide | LeftSide | RightSide

  function SideName(s: Side): string {
    match s
    case TopSide => "top"
    case BottomSide => "bottom"
    case LeftSide => "left"
    case RightSide => "right"
  }

  /** The sides a direction's identifier names: one side, or the two sides of a
      corner, one vertical and one horizontal. */
  function Sides(d: Direction): (r: set<Side>)
    ensures 1 <= |r| <= 2
    ensures |r| == 2 ==> (TopSide in r) != (BottomSide in r) && (LeftSide in r) != (RightSide in r)
  {
    match d
    case Bottom => {BottomSide}
    case BottomLeft => {BottomSide, LeftSide}
    case BottomRight => {BottomSide, RightSide}
    case Top => {TopSide}
    case TopLeft => {TopSide, LeftSide}
    case TopRight => {TopSide, RightSide}
    case Left => {LeftSide}
    case Right => {RightSide}
  }
}
