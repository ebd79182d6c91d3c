/** The 10x10 grid shared by the placement editor and the battle boards. */
module Grid {

  datatype Option<+T> = None | Some(value: T)

  const NbLinesBoxes: int := 10
  const NbColumnsBoxes: int := 10

  /** A cell coordinate. The battle board reads it as (line, column);
      the placement editor as (i, j) with i the horizontal index. */
  type Pos = (int, int)

  datatype Orient = Horizontal | Vertical

  predicate InGrid(p: Pos) {
    0 <= p.0 < NbLinesBoxes && 0 <= p.1 < NbColumnsBoxes
  }

  function Shift(p: Pos, offset: (int, int)): Pos {
    (p.0 + offset.0, p.1 + offset.1)
  }

  /** q lies in the 3x3 block centred on p (p itself included). */
  predicate InBlock(p: Pos, q: Pos) {
    -1 <= q.0 - p.0 <= 1 && -1 <= q.1 - p.1 <= 1
  }

  /** q is one of the eight cells around p. */
  predicate Touches(p: Pos, q: Pos) {
    InBlock(p, q) && q != p
  }

  /** q is one of the four cells sharing a side with p. */
  predicate Orthogonal(p: Pos, q: Pos) {
    (q.0 == p.0 && (q.1 == p.1 - 1 || q.1 == p.1 + 1)) ||
    (q.1 == p.1 && (q.0 == p.0 - 1 || q.0 == p.0 + 1))
  }

  /** Python's ordering of (int, int) tuples. */
  predicate LexLe(a: Pos, b: Pos) {
    a.0 < b.0 || (a.0 == b.0 && a.1 <= b.1)
  }

  /** A map whose keys are exactly the cells of the grid. */
  ghost predicate IsGridMap<V>(m: map<Pos, V>) {
    forall p :: p in m <==> InGrid(p)
  }
}
