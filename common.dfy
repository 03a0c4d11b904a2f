/** The enumerations declared at the root of the crate (lib.rs). */
module Common {
  import G = Geo

  /** Alignment of the elements of a column or of a positioned element. */
  datatype Align = Start | Center | End

  /** The PCB layers an interior atom can be drawn on. */
  datatype Layer = FrontCopper | FrontMask | FrontLegend | BackCopper | BackMask | BackLegend

  /** The direction in which repetitions (and mount cut-outs) point. */
  datatype Direction = Left | Right | Down | Up

  /**
   * `Direction::offset`: the step from one repetition of `bounds` to the
   * next, so that the moved copy starts on the edge where `bounds` ends
   * and stays level with it.
   */
  function Offset(d: Direction, bounds: G.Rect): (o: G.Point)
    ensures d == Right ==> bounds.min.x + o.x == bounds.max.x && o.y == 0.0
    ensures d == Left ==> bounds.max.x + o.x == bounds.min.x && o.y == 0.0
    ensures d == Down ==> bounds.min.y + o.y == bounds.max.y && o.x == 0.0
    ensures d == Up ==> bounds.max.y + o.y == bounds.min.y && o.x == 0.0
  {
    match d
    case Left => G.Point(-G.Width(bounds), 0.0)
    case Right => G.Point(G.Width(bounds), 0.0)
    case Down => G.Point(0.0, G.Height(bounds))
    case Up => G.Point(0.0, -G.Height(bounds))
  }
}
