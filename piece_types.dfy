/** The colour enumeration and footprint types shared by the puzzle cube
    (src/piece-types.ts), and the `isPieceColor` guard. */
module PieceTypes {

  /** A footprint cell: 0 (empty) or 1 (filled). */
  type Point = x: int | x == 0 || x == 1

  /** One row of a footprint: exactly three points. */
  type Piece1D = row: seq<Point> | |row| == 3 witness [0, 0, 0]

  const EmptyRow: Piece1D := [0, 0, 0]

  /** A footprint: exactly three rows of three points. */
  type Piece2D = rows: seq<Piece1D> | |rows| == 3 witness [EmptyRow, EmptyRow, EmptyRow]

  /** The closed set of piece colours (the string-literal union `PieceColor`). */
  datatype PieceColor = Purple | Green | Pink | Orange | Blue

  /** The string literal each colour stands for. */
  function Label(c: PieceColor): string
  {
    match c
    case Purple => "purple"
    case Green => "green"
    case Pink => "pink"
    case Orange => "orange"
    case Blue => "blue"
  }

  /** `allPieceColors`: the five labels, in declaration order. */
  function AllPieceColors(): (r: seq<string>)
    ensures |r| == 5
    ensures forall i, j | 0 <= i < j < |r| :: r[i] != r[j]
    ensures forall c: PieceColor :: Label(c) in r
    ensures forall i | 0 <= i < |r| :: exists c: PieceColor :: r[i] == Label(c)
  {
    var r := ["purple", "green", "pink", "orange", "blue"];
    assert r[0] == Label(Purple) && r[1] == Label(Green) && r[2] == Label(Pink);
    assert r[3] == Label(Orange) && r[4] == Label(Blue);
    r
  }

  /** `Label` is one-to-one: distinct colours have distinct labels. */
  lemma LabelInjective(c: PieceColor, d: PieceColor)
    requires Label(c) == Label(d)
    ensures c == d
  {
  }

  /** The values an `unknown` argument can hold, as far as strict equality
      against a string can tell them apart. */
  datatype JsValue =
    | Undefined
    | Null
    | Bool(b: bool)
    | Number(n: real)
    | Str(s: string)
    | Object(id: nat)

  /** `xs.find((c) => c === v)`: the first element strictly equal to `v`, or
      `undefined` when there is none. A string is strictly equal to `v` exactly
      when `v` is the same string. */
  function FindStrictEqual(xs: seq<string>, v: JsValue): (r: JsValue)
    ensures r == Undefined || r == v
    ensures r != Undefined <==> v.Str? && v.s in xs
  {
    if xs == [] then Undefined
    else if Str(xs[0]) == v then Str(xs[0])
    else FindStrictEqual(xs[1..], v)
  }

  /** `isPieceColor` as written: the result of `find` is compared with `null`,
      but a miss yields `undefined`, so the guard accepts every value. */
  function IsPieceColor(color: JsValue): (r: bool)
    ensures r
  {
    FindStrictEqual(AllPieceColors(), color) != Null
  }

  /** The guard as evidently intended: a miss is `undefined`. */
  function IsPieceColorIntended(color: JsValue): (r: bool)
    ensures r <==> exists c: PieceColor :: color == Str(Label(c))
  {
    var found := FindStrictEqual(AllPieceColors(), color);
    assert color.Str? && color.s in AllPieceColors() ==> exists c: PieceColor :: color.s == Label(c);
    found != Undefined
  }

  /** The as-written guard lets through values that are not colours at all,
      which the intended guard rejects. */
  lemma IsPieceColorAcceptsNonColors()
    ensures IsPieceColor(Null) && !IsPieceColorIntended(Null)
    ensures IsPieceColor(Undefined) && !IsPieceColorIntended(Undefined)
    ensures IsPieceColor(Str("red")) && !IsPieceColorIntended(Str("red"))
  {
  }

  /** Every listed label passes both the written and the intended guard. */
  lemma ListedColorsPass(i: nat)
    requires i < |AllPieceColors()|
    ensures IsPieceColor(Str(AllPieceColors()[i]))
    ensures IsPieceColorIntended(Str(AllPieceColors()[i]))
  {
  }
}
