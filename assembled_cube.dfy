/** The decision layer of the assembled cube (src/AssembedCube3D.tsx): the
    colour-weight table and its weighted draw, the completion test, the
    "highlight everything when complete" pass, and the demo generator that
    draws pieces until the cube is complete.

    The packer `pieceLayout` and the grid builder `placedToCubeColorMap` live
    in a module that is not part of this model; they appear here as the
    parameters `layout` and `toMap`, over an unspecified placed-piece type
    `P`. `Math.random` appears as an explicit, finite sequence of draws. */
module AssembledCube {
  import opened Common
  import opened PieceTypes

  // ---------------------------------------------------------------------
  // Colour weights and the weighted draw

  /** `colorWeights`: each colour with the bound its draw is compared to. */
  function ColorWeights(): (ws: seq<(PieceColor, real)>)
    ensures |ws| == 5
    ensures forall i, j | 0 <= i < j < |ws| :: 0.0 < ws[i].1 < ws[j].1 && ws[i].0 != ws[j].0
    ensures ws[|ws| - 1] == (Purple, 1.0)
  {
    [(Pink, 0.15), (Orange, 0.3), (Green, 0.5), (Blue, 0.75), (Purple, 1.0)]
  }

  /** Every colour has an entry in the weight table, so every colour can be
      drawn. */
  lemma EveryColorWeighted(c: PieceColor)
    ensures exists i | 0 <= i < |ColorWeights()| :: ColorWeights()[i].0 == c
  {
    var ws := ColorWeights();
    match c
    case Pink => assert ws[0].0 == c;
    case Orange => assert ws[1].0 == c;
    case Green => assert ws[2].0 == c;
    case Blue => assert ws[3].0 == c;
    case Purple => assert ws[4].0 == c;
  }

  /** What `find` does with a weight table and a supply of draws: it finds an
      entry after `used` draws, runs past the end of the table (`undefined`)
      after `used` draws, or the supply ends first. */
  datatype Draw =
    | Found(color: PieceColor, used: nat)
    | Missed(used: nat)
    | OutOfDraws

  /** `ws.find(([_, maxWeight]) => Math.random() <= maxWeight)`, where every
      test of an entry takes the next draw. The result is the first entry
      whose own draw is at most its bound. */
  function FindWeighted(ws: seq<(PieceColor, real)>, draws: seq<real>): (r: Draw)
    ensures r.Found? ==>
      && 1 <= r.used <= |ws| && r.used <= |draws|
      && draws[r.used - 1] <= ws[r.used - 1].1 && r.color == ws[r.used - 1].0
      && forall j | 0 <= j < r.used - 1 :: draws[j] > ws[j].1
    ensures r.Missed? ==>
      r.used == |ws| <= |draws| && forall j | 0 <= j < |ws| :: draws[j] > ws[j].1
    ensures r.OutOfDraws? ==>
      |draws| < |ws| && forall j | 0 <= j < |draws| :: draws[j] > ws[j].1
  {
    if ws == [] then Missed(0)
    else if draws == [] then OutOfDraws
    else if draws[0] <= ws[0].1 then Found(ws[0].0, 1)
    else
      match FindWeighted(ws[1..], draws[1..])
      case Found(c, u) => Found(c, u + 1)
      case Missed(u) => Missed(u + 1)
      case OutOfDraws => OutOfDraws
  }

  /** Draws that `Math.random` can return lie in [0, 1). */
  ghost predicate UnitDraws(draws: seq<real>)
  {
    forall k | 0 <= k < |draws| :: 0.0 <= draws[k] < 1.0
  }

  /** With draws from [0, 1) the purple entry (bound 1) always accepts, so
      `find` never runs past the table: the `?? 'purple'` fallback is never
      taken, and with five draws at hand the draw always finds an entry. */
  lemma FallbackUnreachable(draws: seq<real>)
    requires UnitDraws(draws)
    ensures !FindWeighted(ColorWeights(), draws).Missed?
    ensures |draws| >= 5 ==> FindWeighted(ColorWeights(), draws).Found?
  {
  }

  /** The reading the table's cumulative bounds suggest: one draw `x`
      compared with each bound in turn. The result is the index of the first
      entry whose bound is at least `x`, or the table's length when there is
      none, so each entry owns the interval between the previous bound and
      its own. */
  function CumulativeIndex(ws: seq<(PieceColor, real)>, x: real): (i: nat)
    ensures i <= |ws|
    ensures forall j | 0 <= j < i :: x > ws[j].1
    ensures i < |ws| ==> x <= ws[i].1
  {
    if ws == [] then 0
    else if x <= ws[0].1 then 0
    else 1 + CumulativeIndex(ws[1..], x)
  }

  /** When every number `find` draws is the same `x`, the fresh-draw search
      picks the entry the single cumulative draw picks. */
  lemma {:induction false} RepeatedDrawAgrees(ws: seq<(PieceColor, real)>, draws: seq<real>, x: real)
    requires |ws| <= |draws|
    requires forall k | 0 <= k < |draws| :: draws[k] == x
    ensures var i := CumulativeIndex(ws, x);
      FindWeighted(ws, draws) == if i < |ws| then Found(ws[i].0, i + 1) else Missed(|ws|)
  {
    if ws != [] && x > ws[0].1 {
      RepeatedDrawAgrees(ws[1..], draws[1..], x);
    }
  }

  /** With distinct draws the two readings part ways: drawing 0.5 and then
      0.1, the code picks orange, while a single draw of 0.5 against the
      cumulative bounds picks green. */
  lemma FreshDrawsDiffer()
    ensures FindWeighted(ColorWeights(), [0.5, 0.1]) == Found(Orange, 2)
    ensures ColorWeights()[CumulativeIndex(ColorWeights(), 0.5)].0 == Green
  {
  }

  // ---------------------------------------------------------------------
  // The cube colour map and its completion

  /** A cell of the cube colour map. The map holds references to these
      objects, and the highlight pass updates them in place. */
  class LayerPoint {
    var color: PieceColor
    var highlight: bool
  }

  /** One layer: rows of cells, each cell a point or `undefined` (null). */
  type Layer = seq<seq<LayerPoint?>>

  /** The cube colour map: a sequence of layers. */
  type CubeColorMap = seq<Layer>

  /** `cubeColorMap.length === 4 && cubeColorMap.every((layer) =>
      layer.flat().every(Boolean))`: four layers, no undefined cell. */
  predicate IsComplete(m: CubeColorMap)
  {
    |m| == 4 && forall i | 0 <= i < |m| :: null !in Flat(m[i])
  }

  /** `cubeColorMap.flat(2)`: every cell of every layer, layer by layer in
      row-major order. */
  function Cells(m: CubeColorMap): seq<LayerPoint?>
  {
    Flat(Flat(m))
  }

  /** The points the map refers to. */
  function Points(m: CubeColorMap): set<LayerPoint>
  {
    set p: LayerPoint | p in Cells(m)
  }

  /** Completion, stated on the fully flattened map: four layers and no
      undefined cell anywhere. This is what lets the highlight pass treat
      every cell as a point. */
  lemma CompleteIffAllCellsDefined(m: CubeColorMap)
    ensures IsComplete(m) <==> |m| == 4 && null !in Cells(m)
  {
    FlatMember(Flat(m), null);
    if null in Cells(m) {
      var j :| 0 <= j < |Flat(m)| && null in Flat(m)[j];
      FlatMember(m, Flat(m)[j]);
      var i :| 0 <= i < |m| && Flat(m)[j] in m[i];
      FlatMember(m[i], null);
    }
    if exists i :: 0 <= i < |m| && null in Flat(m[i]) {
      var i :| 0 <= i < |m| && null in Flat(m[i]);
      FlatMember(m[i], null);
      var k :| 0 <= k < |m[i]| && null in m[i][k];
      FlatMember(m, m[i][k]);
      assert m[i][k] in Flat(m);
    }
  }

  /** When every layer is 3 by 3, completion means exactly that all 36 cells
      of the four layers are points. */
  lemma CompleteSquareLayers(m: CubeColorMap)
    requires forall i | 0 <= i < |m| :: |m[i]| == 3 && forall k | 0 <= k < 3 :: |m[i][k]| == 3
    ensures IsComplete(m) <==> |m| == 4 && |Cells(m)| == 36 && null !in Cells(m)
  {
    CompleteIffAllCellsDefined(m);
    FlatLength(m, 3);
    forall j | 0 <= j < |Flat(m)|
      ensures |Flat(m)[j]| == 3
    {
      FlatMember(m, Flat(m)[j]);
    }
    FlatLength(Flat(m), 3);
  }

  /** The completion test does not itself count cells: four layers with no
      rows at all pass it. */
  lemma EmptyLayersPass()
    ensures IsComplete([[], [], [], []])
  {
  }

  /** `for (const point of cubeColorMap.flat(2)) point!.highlight = true`:
      every point is highlighted in place and keeps its colour. The `!`
      asserts that no cell is undefined. */
  method HighlightAll(points: seq<LayerPoint?>)
    requires null !in points
    modifies set p: LayerPoint | p in points
    ensures forall p: LayerPoint | p in points :: p.highlight && p.color == old(p.color)
  {
    for k := 0 to |points|
      invariant forall q | 0 <= q < k :: points[q].highlight
      invariant forall p: LayerPoint | p in points :: p.color == old(p.color)
    {
      points[k].highlight := true;
    }
  }

  /** The colours the first effect lays out: none while the stored pieces
      are still loading; the stored pieces outside demo mode; in demo mode
      the generated pieces, which (when the packer places every piece it is
      given) lay out to a complete cube. `None` also when the draws run out
      in demo mode, where the source would still be drawing. */
  function ShownColors<P>(placedPieces: Option<seq<PieceColor>>, demo: bool, draws: seq<real>,
                          layout: seq<PieceColor> -> seq<seq<P>>,
                          toMap: seq<seq<P>> -> CubeColorMap): (r: Option<seq<PieceColor>>)
    ensures r.Some? ==> placedPieces.Some?
    ensures placedPieces.Some? && !demo ==> r == placedPieces
    ensures placedPieces.Some? && demo ==>
      var g := Generate(layout, toMap, draws, [], [[]], 0);
      (r.Some? <==> g.Completed?) && (r.Some? ==> r.value == g.pieces)
    ensures demo && r.Some? && PlacesEveryPiece(layout) ==>
      IsComplete(toMap(layout(r.value))) || (r.value == [] && IsComplete(toMap([[]])))
  {
    if placedPieces.None? then None
    else if !demo then placedPieces
    else
      var g := Generate(layout, toMap, draws, [], [[]], 0);
      assert PlacesEveryPiece(layout) ==>
        g.Completed? ==> IsComplete(toMap(layout(g.pieces))) || (g.pieces == [] && IsComplete(toMap([[]]))) by {
        if PlacesEveryPiece(layout) {
          GeneratedPiecesComplete(layout, toMap, draws);
        }
      }
      if g.Completed? then Some(g.pieces) else None
  }

  /** The state `AssembledCube3D` keeps for rendering: the layers handed to
      `setLayers` and the flag handed to `setIsComplete`. */
  class CubeView {
    var layers: CubeColorMap
    var isComplete: bool

    constructor ()
      ensures layers == [[]] && !isComplete
    {
      layers := [[]];
      isComplete := false;
    }

    /** The first effect: nothing while the stored pieces are still loading;
        otherwise lay out the stored (or, in demo mode, generated) pieces,
        build the colour map, record whether it is complete and, if so,
        highlight every point. */
    method Refresh<P>(placedPieces: Option<seq<PieceColor>>, demo: bool, draws: seq<real>,
                      layout: seq<PieceColor> -> seq<seq<P>>,
                      toMap: seq<seq<P>> -> CubeColorMap)
      modifies this
      modifies var shown := ShownColors(placedPieces, demo, draws, layout, toMap);
        if shown.Some? then Points(toMap(layout(shown.value))) else {}
      ensures var shown := ShownColors(placedPieces, demo, draws, layout, toMap);
        shown.None? ==> layers == old(layers) && isComplete == old(isComplete)
      ensures var shown := ShownColors(placedPieces, demo, draws, layout, toMap);
        shown.Some? ==> layers == toMap(layout(shown.value)) && isComplete == IsComplete(layers)
      ensures ShownColors(placedPieces, demo, draws, layout, toMap).Some? && isComplete ==>
        forall p: LayerPoint | p in Points(layers) && old(allocated(p)) :: p.highlight && p.color == old(p.color)
      ensures ShownColors(placedPieces, demo, draws, layout, toMap).Some? && !isComplete ==>
        forall p: LayerPoint | p in Points(layers) && old(allocated(p)) ::
          p.highlight == old(p.highlight) && p.color == old(p.color)
      ensures var shown := ShownColors(placedPieces, demo, draws, layout, toMap);
        demo && shown.Some? && PlacesEveryPiece(layout) ==> isComplete || shown.value == []
    {
      if placedPieces.None? {
        return;
      }
      var colors := placedPieces.value;
      if demo {
        var generated, complete := GenerateRandomCubePieces(layout, toMap, draws);
        if !complete {
          return;
        }
        colors := generated;
      }
      var cubeColorMap := toMap(layout(colors));
      var nextIsComplete := IsComplete(cubeColorMap);
      isComplete := nextIsComplete;
      if nextIsComplete {
        CompleteIffAllCellsDefined(cubeColorMap);
        HighlightAll(Cells(cubeColorMap));
      }
      layers := cubeColorMap;
    }
  }

  // ---------------------------------------------------------------------
  // The demo generator

  /** The colour a finished weighted draw yields: the entry `find` stopped
      at, or purple when it ran past the table (`?? 'purple'`). */
  function DrawnColor(d: Draw): PieceColor
    requires !d.OutOfDraws?
  {
    if d.Found? then d.color else Purple
  }

  /** What one call of `tryPiece` leaves behind: the colour it drew, the
      accepted pieces, the trial layout it returns, and the index of the
      next unused draw. */
  datatype Trial<P> = Trial(drawn: PieceColor, pieces: seq<PieceColor>, laidOut: seq<seq<P>>, next: nat)

  /** `tryPiece` on values: draw a colour, lay out the accepted pieces plus
      that colour, and keep the colour only when the trial layout holds
      exactly one more placed piece. `None` when the draws run out in the
      middle of the `find`. */
  function NextTrial<P>(layout: seq<PieceColor> -> seq<seq<P>>, draws: seq<real>,
                        pieces: seq<PieceColor>, next: nat): (r: Option<Trial<P>>)
    requires next <= |draws|
    ensures var d := FindWeighted(ColorWeights(), draws[next..]);
      && (r.None? <==> d.OutOfDraws?)
      && (r.Some? ==> r.value.drawn == DrawnColor(d) && r.value.next == next + d.used)
    ensures r.Some? ==> next < r.value.next <= |draws|
    ensures r.Some? ==> r.value.laidOut == layout(pieces + [r.value.drawn])
    ensures r.Some? ==> r.value.pieces == pieces || r.value.pieces == pieces + [r.value.drawn]
    ensures r.Some? ==>
      (r.value.pieces == pieces + [r.value.drawn] <==> |Flat(r.value.laidOut)| == |pieces| + 1)
  {
    var d := FindWeighted(ColorWeights(), draws[next..]);
    if d.OutOfDraws? then None
    else
      var color := DrawnColor(d);
      var laidOut := layout(pieces + [color]);
      var accepted := if |Flat(laidOut)| == |pieces| + 1 then pieces + [color] else pieces;
      Some(Trial(color, accepted, laidOut, next + d.used))
  }

  /** How the generator ends: the loop saw a complete cube, or the draws ran
      out first. Either way it carries the accepted pieces, the most recent
      trial layout and the index of the next unused draw. */
  datatype Outcome<P> =
    | Completed(pieces: seq<PieceColor>, laidOut: seq<seq<P>>, next: nat)
    | Exhausted(pieces: seq<PieceColor>, laidOut: seq<seq<P>>, next: nat)

  /** The generator loop from a given state: stop once the most recent trial
      layout is complete, otherwise try one more piece. */
  function Generate<P>(layout: seq<PieceColor> -> seq<seq<P>>, toMap: seq<seq<P>> -> CubeColorMap,
                       draws: seq<real>, pieces: seq<PieceColor>, laidOut: seq<seq<P>>, next: nat): (r: Outcome<P>)
    requires next <= |draws|
    ensures next <= r.next <= |draws|
    ensures pieces <= r.pieces
    ensures |r.pieces| - |pieces| <= r.next - next
    ensures r.Completed? <==> IsComplete(toMap(r.laidOut))
    ensures r.Exhausted? ==> FindWeighted(ColorWeights(), draws[r.next..]).OutOfDraws?
    decreases |draws| - next
  {
    if IsComplete(toMap(laidOut)) then Completed(pieces, laidOut, next)
    else
      match NextTrial(layout, draws, pieces, next)
      case None => Exhausted(pieces, laidOut, next)
      case Some(t) => Generate(layout, toMap, draws, t.pieces, t.laidOut, t.next)
  }

  /** One turn of the generator loop on a state whose layout is not
      complete: either the draws ran out, or the loop goes on from the state
      `tryPiece` left. */
  lemma GenerateTurn<P>(layout: seq<PieceColor> -> seq<seq<P>>, toMap: seq<seq<P>> -> CubeColorMap,
                        draws: seq<real>, pieces: seq<PieceColor>, laidOut: seq<seq<P>>, next: nat)
    requires next <= |draws| && !IsComplete(toMap(laidOut))
    ensures var t := NextTrial(layout, draws, pieces, next);
      Generate(layout, toMap, draws, pieces, laidOut, next) ==
        if t.None? then Exhausted(pieces, laidOut, next)
        else Generate(layout, toMap, draws, t.value.pieces, t.value.laidOut, t.value.next)
  {
  }

  /** The state `generateRandomCubePieces` keeps while it runs: the `pieces`
      array its inner `tryPiece` pushes onto, and the position in the supply
      of draws that stands for `Math.random`. */
  class PieceGenerator {
    const draws: seq<real>
    var pieces: seq<PieceColor>
    var next: nat

    ghost predicate Valid()
      reads this
    {
      next <= |draws|
    }

    constructor (draws: seq<real>)
      ensures this.draws == draws && pieces == [] && next == 0
      ensures Valid()
    {
      this.draws := draws;
      pieces := [];
      next := 0;
    }

    /** `tryPiece`: draw a colour, lay out the pieces plus that colour, and
        push the colour onto `pieces` when the trial layout holds exactly one
        more placed piece. `outOfDraws` reports that the supply ended in the
        middle of the `find`; then nothing changes. */
    method TryPiece<P>(layout: seq<PieceColor> -> seq<seq<P>>) returns (outOfDraws: bool, laidOut: seq<seq<P>>)
      requires Valid()
      modifies this
      ensures Valid()
      ensures outOfDraws <==> FindWeighted(ColorWeights(), draws[old(next)..]).OutOfDraws?
      ensures outOfDraws ==> pieces == old(pieces) && next == old(next)
      ensures !outOfDraws ==>
        var d := FindWeighted(ColorWeights(), draws[old(next)..]);
        && next == old(next) + d.used
        && laidOut == layout(old(pieces) + [DrawnColor(d)])
        && (|Flat(laidOut)| == |old(pieces)| + 1 ==> pieces == old(pieces) + [DrawnColor(d)])
        && (|Flat(laidOut)| != |old(pieces)| + 1 ==> pieces == old(pieces))
      ensures !outOfDraws ==>
        NextTrial(layout, draws, old(pieces), old(next)) ==
          Some(Trial(DrawnColor(FindWeighted(ColorWeights(), draws[old(next)..])), pieces, laidOut, next))
    {
      var d := FindWeighted(ColorWeights(), draws[next..]);
      if d.OutOfDraws? {
        return true, [];
      }
      var color := DrawnColor(d);
      next := next + d.used;
      var attemptedPieces := pieces + [color];
      laidOut := layout(attemptedPieces);
      if |Flat(laidOut)| == |pieces| + 1 {
        pieces := pieces + [color];
      }
      outOfDraws := false;
    }
  }

  /** `generateRandomCubePieces`: start from no pieces and the layout `[[]]`,
      and try pieces until the completion test holds. `complete` is false
      when the draws run out first (where the source would keep drawing). */
  method GenerateRandomCubePieces<P>(layout: seq<PieceColor> -> seq<seq<P>>,
                                     toMap: seq<seq<P>> -> CubeColorMap,
                                     draws: seq<real>)
    returns (pieces: seq<PieceColor>, complete: bool)
    ensures pieces == Generate(layout, toMap, draws, [], [[]], 0).pieces
    ensures complete == Generate(layout, toMap, draws, [], [[]], 0).Completed?
  {
    var generator := new PieceGenerator(draws);
    var laidOut: seq<seq<P>> := [[]];
    while !IsComplete(toMap(laidOut))
      invariant generator.Valid() && generator.draws == draws
      invariant Generate(layout, toMap, draws, generator.pieces, laidOut, generator.next)
             == Generate(layout, toMap, draws, [], [[]], 0)
      decreases |draws| - generator.next
    {
      GenerateTurn(layout, toMap, draws, generator.pieces, laidOut, generator.next);
      ghost var t := NextTrial(layout, draws, generator.pieces, generator.next);
      var outOfDraws;
      outOfDraws, laidOut := generator.TryPiece(layout);
      if outOfDraws {
        return generator.pieces, false;
      }
      assert t.value.pieces == generator.pieces && t.value.laidOut == laidOut && t.value.next == generator.next;
      // the argument-less `pieces.push()` appends nothing
    }
    return generator.pieces, true;
  }

  /** The packer's promise (not part of this model): laying out a sequence
      places every one of its pieces. */
  ghost predicate PlacesEveryPiece<P>(layout: seq<PieceColor> -> seq<seq<P>>)
  {
    forall s: seq<PieceColor> :: |Flat(layout(s))| == |s|
  }

  /** If the packer places every piece, every draw is accepted, and the last
      trial layout is the layout of the accepted pieces. */
  lemma {:induction false} GenerateKeepsLayout<P>(layout: seq<PieceColor> -> seq<seq<P>>,
                                                  toMap: seq<seq<P>> -> CubeColorMap, draws: seq<real>,
                                                  pieces: seq<PieceColor>, laidOut: seq<seq<P>>, next: nat)
    requires next <= |draws|
    requires PlacesEveryPiece(layout)
    requires laidOut == layout(pieces)
    ensures Generate(layout, toMap, draws, pieces, laidOut, next).laidOut
         == layout(Generate(layout, toMap, draws, pieces, laidOut, next).pieces)
    decreases |draws| - next
  {
    if !IsComplete(toMap(laidOut)) {
      var t := NextTrial(layout, draws, pieces, next);
      if t.Some? {
        assert |Flat(t.value.laidOut)| == |pieces + [t.value.drawn]|;
        GenerateKeepsLayout(layout, toMap, draws, t.value.pieces, t.value.laidOut, t.value.next);
      }
    }
  }

  /** The draw position after one weighted draw from position `i` that
      finishes before the supply runs out; `None` when it runs out first. */
  function DrawEnd(draws: seq<real>, i: nat): Option<nat>
  {
    if i > |draws| then None
    else
      var d := FindWeighted(ColorWeights(), draws[i..]);
      if d.OutOfDraws? then None else Some(i + d.used)
  }

  /** The draw position reached from position `i` after `n` weighted
      draws, each finishing before the supply runs out; `None` when the
      supply runs out first. */
  function ChainEnd(draws: seq<real>, i: nat, n: nat): Option<nat>
    decreases n
  {
    if n == 0 then (if i <= |draws| then Some(i) else None)
    else
      match DrawEnd(draws, i)
      case None => None
      case Some(j) => ChainEnd(draws, j, n - 1)
  }

  /** A try that finishes its draw moves the position to its `DrawEnd`. */
  lemma TrialDrawEnd(draws: seq<real>, next: nat, after: nat)
    requires next <= |draws|
    requires !FindWeighted(ColorWeights(), draws[next..]).OutOfDraws?
    requires after == next + FindWeighted(ColorWeights(), draws[next..]).used
    ensures DrawEnd(draws, next) == Some(after)
  {
  }

  /** One more finished draw in front of a chain. */
  lemma ChainEndStep(draws: seq<real>, i: nat, j: nat, n: nat, e: nat)
    requires DrawEnd(draws, i) == Some(j)
    requires ChainEnd(draws, j, n) == Some(e)
    ensures ChainEnd(draws, i, n + 1) == Some(e)
  {
  }

  /** If the packer places every piece, every try is accepted, so a run
      stops exactly where one finished weighted draw per added piece
      leads. */
  lemma {:induction false} GenerateConsumesDraws<P>(layout: seq<PieceColor> -> seq<seq<P>>,
                                                    toMap: seq<seq<P>> -> CubeColorMap, draws: seq<real>,
                                                    pieces: seq<PieceColor>, laidOut: seq<seq<P>>, next: nat)
    requires next <= |draws|
    requires PlacesEveryPiece(layout)
    ensures ChainEnd(draws, next, |Generate(layout, toMap, draws, pieces, laidOut, next).pieces| - |pieces|)
      == Some(Generate(layout, toMap, draws, pieces, laidOut, next).next)
    decreases |draws| - next, 1
  {
    if IsComplete(toMap(laidOut)) {
      assert Generate(layout, toMap, draws, pieces, laidOut, next).next == next;
      assert ChainEnd(draws, next, 0) == Some(next);
    } else if NextTrial(layout, draws, pieces, next).None? {
      GenerateTurn(layout, toMap, draws, pieces, laidOut, next);
      assert Generate(layout, toMap, draws, pieces, laidOut, next).next == next;
      assert ChainEnd(draws, next, 0) == Some(next);
    } else {
      AcceptedTryConsumesDraws(layout, toMap, draws, pieces, laidOut, next);
    }
  }

  /** The step of `GenerateConsumesDraws` for a state that is not complete
      and whose try finishes its draw. */
  lemma {:induction false} AcceptedTryConsumesDraws<P>(layout: seq<PieceColor> -> seq<seq<P>>,
                                                       toMap: seq<seq<P>> -> CubeColorMap, draws: seq<real>,
                                                       pieces: seq<PieceColor>, laidOut: seq<seq<P>>, next: nat)
    requires next <= |draws|
    requires PlacesEveryPiece(layout)
    requires !IsComplete(toMap(laidOut)) && NextTrial(layout, draws, pieces, next).Some?
    ensures ChainEnd(draws, next, |Generate(layout, toMap, draws, pieces, laidOut, next).pieces| - |pieces|)
      == Some(Generate(layout, toMap, draws, pieces, laidOut, next).next)
    decreases |draws| - next, 0
  {
    GenerateTurn(layout, toMap, draws, pieces, laidOut, next);
    var u := NextTrial(layout, draws, pieces, next).value;
    assert |Flat(u.laidOut)| == |pieces + [u.drawn]|;
    GenerateConsumesDraws(layout, toMap, draws, u.pieces, u.laidOut, u.next);
    assert ChainEnd(draws, u.next, |Generate(layout, toMap, draws, u.pieces, u.laidOut, u.next).pieces| - |u.pieces|)
      == Some(Generate(layout, toMap, draws, u.pieces, u.laidOut, u.next).next);
    TrialDrawEnd(draws, next, u.next);
    ChainEndStep(draws, next, u.next,
                 |Generate(layout, toMap, draws, u.pieces, u.laidOut, u.next).pieces| - |u.pieces|,
                 Generate(layout, toMap, draws, u.pieces, u.laidOut, u.next).next);
    assert Generate(layout, toMap, draws, pieces, laidOut, next)
      == Generate(layout, toMap, draws, u.pieces, u.laidOut, u.next);
    assert |u.pieces| == |pieces| + 1;
    assert |Generate(layout, toMap, draws, pieces, laidOut, next).pieces| - |pieces|
      == |Generate(layout, toMap, draws, u.pieces, u.laidOut, u.next).pieces| - |u.pieces| + 1;
  }

  /** If the packer places every piece, a generator run that ends complete
      returns pieces whose own layout is a complete cube (or no pieces at
      all, when the starting layout `[[]]` already counts as complete). */
  lemma GeneratedPiecesComplete<P>(layout: seq<PieceColor> -> seq<seq<P>>,
                                   toMap: seq<seq<P>> -> CubeColorMap, draws: seq<real>)
    requires PlacesEveryPiece(layout)
    ensures var r := Generate(layout, toMap, draws, [], [[]], 0);
      r.Completed? ==>
        IsComplete(toMap(layout(r.pieces))) || (r.pieces == [] && IsComplete(toMap([[]])))
  {
    if !IsComplete(toMap([[]])) {
      var t := NextTrial(layout, draws, [], 0);
      if t.Some? {
        assert |Flat(t.value.laidOut)| == |[t.value.drawn]|;
        GenerateKeepsLayout(layout, toMap, draws, t.value.pieces, t.value.laidOut, t.value.next);
      }
    }
  }
}
