/** The shape table of the puzzle pieces and the mapping from a footprint to
    the unit boxes drawn for it (src/Piece.tsx, without its animation hooks). */
module Piece {
  import opened Common
  import opened PieceTypes

  /** The colour list that the rendering file declares again for itself. */
  function ShapeFileColors(): (r: seq<string>)
    ensures r == AllPieceColors()
  {
    ["purple", "green", "pink", "orange", "blue"]
  }

  const PurplePieceMap: Piece2D := [[0, 0, 0], [0, 0, 0], [1, 0, 0]]
  const GreenPieceMap: Piece2D := [[0, 0, 0], [1, 0, 0], [1, 1, 0]]
  const PinkPieceMap: Piece2D := [[1, 0, 0], [1, 0, 0], [1, 1, 1]]
  const OrangePieceMap: Piece2D := [[0, 1, 0], [0, 1, 0], [1, 1, 1]]
  const BluePieceMap: Piece2D := [[0, 0, 0], [0, 0, 0], [1, 1, 0]]

  /** What each entry of the `pieces` record renders: a `Piece` with a
      footprint and a colour. */
  datatype PieceProps = PieceProps(piece: Piece2D, color: string)

  /** The `pieces` record, keyed by colour. */
  function Pieces(): (r: map<PieceColor, PieceProps>)
    ensures r.Keys == {Purple, Green, Pink, Orange, Blue}
  {
    map[
      Purple := PieceProps(PurplePieceMap, "purple"),
      Green := PieceProps(GreenPieceMap, "green"),
      Pink := PieceProps(PinkPieceMap, "pink"),
      Orange := PieceProps(OrangePieceMap, "orange"),
      Blue := PieceProps(BluePieceMap, "blue")]
  }

  /** The record is total over the colours, and each entry draws in its own
      colour. */
  lemma PiecesTotal(c: PieceColor)
    ensures c in Pieces() && Pieces()[c].color == Label(c)
  {
  }

  /** No two colours share a footprint. */
  lemma PiecesDistinct(c: PieceColor, d: PieceColor)
    requires c != d
    ensures Pieces()[c].piece != Pieces()[d].piece
  {
  }

  /** The footprint a colour is drawn with. */
  function Shape(c: PieceColor): Piece2D
  {
    PiecesTotal(c);
    Pieces()[c].piece
  }

  /** Sum of a row of points, that is, the number of filled cells in it. */
  function Ones(xs: seq<Point>): nat
  {
    if xs == [] then 0 else xs[0] + Ones(xs[1..])
  }

  /** Number of filled cells of a footprint. */
  function FilledCount(p: Piece2D): nat
  {
    Ones(Flat(p))
  }

  lemma {:induction false} OnesConcat(a: seq<Point>, b: seq<Point>)
    ensures Ones(a + b) == Ones(a) + Ones(b)
  {
    if a == [] {
      assert a + b == b;
    } else {
      OnesConcat(a[1..], b);
      assert (a + b)[0] == a[0];
      assert (a + b)[1..] == a[1..] + b;
    }
  }

  function RowSum(row: Piece1D): int
  {
    row[0] as int + row[1] as int + row[2] as int
  }

  lemma OnesRow(row: Piece1D)
    ensures Ones(row) == RowSum(row)
  {
    var s: seq<Point> := row;
    assert s[1..][1..][1..] == [];
    assert Ones(s[1..][1..]) == s[2] as int;
    assert Ones(s[1..]) == s[1] as int + s[2] as int;
  }

  lemma FilledCountByRows(p: Piece2D)
    ensures FilledCount(p) ==
      RowSum(p[0]) + RowSum(p[1]) + RowSum(p[2])
  {
    var rows: seq<seq<Point>> := p;
    assert Flat(rows[3..]) == [];
    assert Flat(rows[2..]) == rows[2];
    assert Flat(rows[1..]) == rows[1] + rows[2];
    assert Flat(rows) == rows[0] + rows[1] + rows[2];
    OnesConcat(rows[0], rows[1] + rows[2]);
    OnesConcat(rows[1], rows[2]);
    OnesRow(p[0]);
    OnesRow(p[1]);
    OnesRow(p[2]);
  }

  /** The fixed weights of the five shapes. */
  lemma FilledCounts()
    ensures FilledCount(Shape(Purple)) == 1
    ensures FilledCount(Shape(Green)) == 3
    ensures FilledCount(Shape(Pink)) == 5
    ensures FilledCount(Shape(Orange)) == 5
    ensures FilledCount(Shape(Blue)) == 2
  {
    FilledCountByRows(PurplePieceMap);
    FilledCountByRows(GreenPieceMap);
    FilledCountByRows(PinkPieceMap);
    FilledCountByRows(OrangePieceMap);
    FilledCountByRows(BluePieceMap);
  }

  /** Purple's only filled cell is row 2, column 0. */
  lemma PurpleSingleCell(r: nat, c: nat)
    requires r < 3 && c < 3
    ensures Shape(Purple)[r][c] == 1 <==> r == 2 && c == 0
  {
  }

  /** Every shape fills row 2, column 0. */
  lemma BottomLeftFilled(c: PieceColor)
    ensures Shape(c)[2][0] == 1
  {
  }

  /** A position of a box: `[x, y, z]`. */
  datatype Vec3 = Vec3(x: int, y: int, z: int)

  /** A rendered unit box: its React key and its position. */
  datatype Mesh = Mesh(key: string, position: Vec3)

  function Digit(d: nat): char
    requires d < 10
  {
    ('0' as int + d) as char
  }

  /** The key `cube-<row>-<column>`. */
  function CellKey(r: nat, c: nat): string
    requires r < 10 && c < 10
  {
    "cube-" + [Digit(r)] + "-" + [Digit(c)]
  }

  /** The box drawn for a filled cell at row `r`, column `c`. */
  function CellMesh(r: nat, c: nat): Mesh
    requires r < 3 && c < 3
  {
    Mesh(CellKey(r, c), Vec3(c, 3 - r, 0))
  }

  /** The inner `map` over one row: a box per filled cell, `null` per empty one. */
  function RowMeshes(row: Piece1D, r: nat): seq<Option<Mesh>>
    requires r < 3
  {
    seq(3, c requires 0 <= c < 3 => if row[c] == 0 then None else Some(CellMesh(r, c)))
  }

  /** The outer `map` over the rows. */
  function PieceMeshes(piece: Piece2D): seq<seq<Option<Mesh>>>
  {
    seq(3, r requires 0 <= r < 3 => RowMeshes(piece[r], r))
  }

  /** The boxes React mounts for a footprint: the nested result flattened,
      `null`s dropped. */
  function Rendered(piece: Piece2D): seq<Mesh>
  {
    Somes(Flat(PieceMeshes(piece)))
  }

  /** Position of a box in row-major order of the cell it stands for. */
  function Rank(m: Mesh): int
  {
    3 * (3 - m.position.y) + m.position.x
  }

  lemma CellKeyInjective(r1: nat, c1: nat, r2: nat, c2: nat)
    requires r1 < 10 && c1 < 10 && r2 < 10 && c2 < 10
    requires CellKey(r1, c1) == CellKey(r2, c2)
    ensures r1 == r2 && c1 == c2
  {
    assert CellKey(r1, c1)[5] == Digit(r1) && CellKey(r2, c2)[5] == Digit(r2);
    assert CellKey(r1, c1)[7] == Digit(c1) && CellKey(r2, c2)[7] == Digit(c2);
  }

  /** The flattened nested map, cell by cell in row-major order. */
  lemma MeshesAt(piece: Piece2D)
    ensures |Flat(PieceMeshes(piece))| == 9 && |Flat(piece)| == 9
    ensures forall k | 0 <= k < 9 ::
      Flat(PieceMeshes(piece))[k] ==
        if Flat(piece)[k] == 0 then None else Some(CellMesh(k / 3, k % 3))
  {
    FlatThree(PieceMeshes(piece));
    FlatThree(piece);
  }

  lemma {:induction false} SomesCount<T>(xs: seq<Option<T>>, ys: seq<Point>)
    requires |xs| == |ys|
    requires forall k | 0 <= k < |xs| :: xs[k].Some? <==> ys[k] == 1
    ensures |Somes(xs)| == Ones(ys)
  {
    if xs != [] {
      SomesCount(xs[1..], ys[1..]);
    }
  }

  lemma {:induction false} SomesRanked(xs: seq<Option<Mesh>>, off: int)
    requires forall k | 0 <= k < |xs| :: xs[k].Some? ==> Rank(xs[k].value) == off + k
    ensures forall i | 0 <= i < |Somes(xs)| :: off <= Rank(Somes(xs)[i]) < off + |xs|
    ensures forall i, j | 0 <= i < j < |Somes(xs)| :: Rank(Somes(xs)[i]) < Rank(Somes(xs)[j])
  {
    if xs != [] {
      SomesRanked(xs[1..], off + 1);
    }
  }

  /** One box per filled cell: cells equal to 0 emit nothing. */
  lemma RenderedCount(piece: Piece2D)
    ensures |Rendered(piece)| == FilledCount(piece)
  {
    MeshesAt(piece);
    SomesCount(Flat(PieceMeshes(piece)), Flat(piece));
  }

  /** A box is rendered exactly for each filled cell (r, c), at (c, 3 - r, 0)
      with key `cube-r-c`. */
  lemma RenderedCells(piece: Piece2D, m: Mesh)
    ensures m in Rendered(piece) <==>
      exists r: nat, c: nat :: r < 3 && c < 3 && piece[r][c] == 1 && m == CellMesh(r, c)
  {
    var xs := Flat(PieceMeshes(piece));
    MeshesAt(piece);
    FlatThree(piece);
    SomesMember(xs, m);
    if m in Rendered(piece) {
      var k :| 0 <= k < |xs| && xs[k] == Some(m);
      assert piece[k / 3][k % 3] == 1 && m == CellMesh(k / 3, k % 3);
    }
    if exists r: nat, c: nat :: r < 3 && c < 3 && piece[r][c] == 1 && m == CellMesh(r, c) {
      var r: nat, c: nat :| r < 3 && c < 3 && piece[r][c] == 1 && m == CellMesh(r, c);
      var k := 3 * r + c;
      assert k / 3 == r && k % 3 == c;
      assert xs[k] == Some(m);
    }
  }

  /** Every box lies at x in {0, 1, 2}, y in {1, 2, 3} and z = 0, and is the
      box of the cell at row 3 - y, column x. */
  lemma RenderedBounds(piece: Piece2D, m: Mesh)
    requires m in Rendered(piece)
    ensures 0 <= m.position.x <= 2 && 1 <= m.position.y <= 3 && m.position.z == 0
    ensures m == CellMesh(3 - m.position.y, m.position.x)
  {
    RenderedCells(piece, m);
  }

  /** Boxes come in row-major order of their cells, so their positions and
      their keys are pairwise distinct. */
  lemma RenderedRowMajor(piece: Piece2D, i: nat, j: nat)
    requires i < j < |Rendered(piece)|
    ensures Rank(Rendered(piece)[i]) < Rank(Rendered(piece)[j])
    ensures Rendered(piece)[i].position != Rendered(piece)[j].position
    ensures Rendered(piece)[i].key != Rendered(piece)[j].key
  {
    var ms := Rendered(piece);
    MeshesAt(piece);
    SomesRanked(Flat(PieceMeshes(piece)), 0);
    RenderedBounds(piece, ms[i]);
    RenderedBounds(piece, ms[j]);
    var pi, pj := ms[i].position, ms[j].position;
    if ms[i].key == ms[j].key {
      CellKeyInjective(3 - pi.y, pi.x, 3 - pj.y, pj.x);
    }
  }
}
