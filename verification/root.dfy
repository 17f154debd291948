/** The root component's row bookkeeping: one placement per layout entry, a running
    seat-index offset, a quarter-circle fan of angles, and a max-accumulated bounding box.
    `SeatSize` comes from the seat component and `Math.sin`/`Math.cos` are left
    uninterpreted, so they arrive through `Geometry`. */
module Root {
  import opened Wrappers

  /** The seat size and the trigonometry the bounding box uses; `sinDeg(a)` stands for
      `Math.sin((Math.PI / 180) * a)`, and likewise `cosDeg`. */
  datatype Geometry = Geometry(seatSize: real, sinDeg: real -> real, cosDeg: real -> real)

  /** `Math.floor(5.5 * SeatSize)`. */
  function StartRadius(geo: Geometry): int {
    (5.5 * geo.seatSize).Floor
  }

  /** One row placement (`IRow`). */
  datatype Row = Row(indexOffset: nat, x: real, y: real, seatGroups: nat, angle: real)

  /** The props `updateRows` reads; the selection callback is modelled by `OnSeatClicked`'s result. */
  datatype Props = Props(layout: seq<nat>, occupied: seq<string>, selectedId: Option<string>)

  /** The component state (`IRootComponentState`). */
  datatype RootState = RootState(selectedId: Option<string>, rows: seq<Row>, maxWidth: real, maxHeight: real)

  /** The state initialiser. */
  const InitialState: RootState := RootState(None, [], 0.0, 0.0)

  function Sum(s: seq<nat>): nat {
    if s == [] then 0 else Sum(s[..|s| - 1]) + s[|s| - 1]
  }

  /** `90 / (layout.length - 1)`; with one row it would divide by zero. */
  function DeltaAngle(n: nat): real
    requires n != 1
  {
    90.0 / ((n - 1) as real)
  }

  function Max(a: real, b: real): real {
    if a >= b then a else b
  }

  /** Where row `i` of `layout` must be placed: after the seats of the rows before it,
      at the common origin, with its table count and its share of the fan. */
  ghost predicate PlacedAt(layout: seq<nat>, geo: Geometry, row: Row, i: nat)
    requires |layout| != 1 && i < |layout|
  {
    row == Row(2 * Sum(layout[..i]), -geo.seatSize, StartRadius(geo) as real, layout[i], DeltaAngle(|layout|) * (i as real))
  }

  /** One placement per layout entry, in layout order. */
  ghost predicate Placed(layout: seq<nat>, geo: Geometry, rows: seq<Row>)
    requires |layout| != 1
  {
    |rows| == |layout| && forall i :: 0 <= i < |rows| ==> PlacedAt(layout, geo, rows[i], i)
  }

  /** How far a row reaches from the origin: `startRadius + SeatSize * layout[i]`. */
  function Reach(geo: Geometry, row: Row): real {
    row.y + geo.seatSize * (row.seatGroups as real)
  }

  /** The two values one row folds into a maximum, first `first`, then `second`. */
  datatype Candidates = Candidates(first: real, second: real)

  /** What one row folds into `maxWidth`. */
  function WidthCandidates(geo: Geometry, row: Row): Candidates {
    var s := geo.sinDeg(row.angle);
    var c := geo.cosDeg(row.angle);
    Candidates(geo.seatSize + s * Reach(geo, row) + c * geo.seatSize,
               geo.seatSize + s * Reach(geo, row) - c * geo.seatSize)
  }

  /** What one row folds into `maxHeight`. */
  function HeightCandidates(geo: Geometry, row: Row): Candidates {
    var s := geo.sinDeg(row.angle);
    var c := geo.cosDeg(row.angle);
    Candidates(geo.seatSize + c * Reach(geo, row) - s * geo.seatSize,
               geo.seatSize + c * Reach(geo, row) + s * geo.seatSize)
  }

  /** Two `Math.max` steps: fold `first`, then `second`. */
  function FoldMax(m: real, t: Candidates): real {
    Max(Max(m, t.first), t.second)
  }

  /** All width candidates of `rows`, row by row. */
  function WidthTerms(geo: Geometry, rows: seq<Row>): seq<real> {
    if rows == [] then []
    else
      var t := WidthCandidates(geo, rows[|rows| - 1]);
      WidthTerms(geo, rows[..|rows| - 1]) + [t.first, t.second]
  }

  /** All height candidates of `rows`, row by row. */
  function HeightTerms(geo: Geometry, rows: seq<Row>): seq<real> {
    if rows == [] then []
    else
      var t := HeightCandidates(geo, rows[|rows| - 1]);
      HeightTerms(geo, rows[..|rows| - 1]) + [t.first, t.second]
  }

  /** `m` is what folding `Math.max` over `terms` from 0 gives: never negative, at least
      every term, and either 0 or one of the terms. */
  predicate IsRunningMax(m: real, terms: seq<real>) {
    && m >= 0.0
    && (forall j :: 0 <= j < |terms| ==> terms[j] <= m)
    && (m == 0.0 || m in terms)
  }

  /** Folding one more value keeps the running max. */
  lemma MaxStep(m: real, terms: seq<real>, t: real)
    requires IsRunningMax(m, terms)
    ensures IsRunningMax(Max(m, t), terms + [t])
  {
    assert forall j :: 0 <= j < |terms| ==> (terms + [t])[j] == terms[j];
    assert (terms + [t])[|terms|] == t;
  }

  /** The running max of a list of terms is unique: it is the maximum of 0 and the terms. */
  lemma RunningMaxIsUnique(m: real, m': real, terms: seq<real>)
    requires IsRunningMax(m, terms) && IsRunningMax(m', terms)
    ensures m == m'
  {
  }

  /** Folding a row's two width candidates extends the running max to that row. */
  lemma FoldWidth(geo: Geometry, rows: seq<Row>, row: Row, m: real)
    requires IsRunningMax(m, WidthTerms(geo, rows))
    ensures IsRunningMax(FoldMax(m, WidthCandidates(geo, row)), WidthTerms(geo, rows + [row]))
  {
    var w := WidthCandidates(geo, row);
    MaxStep(m, WidthTerms(geo, rows), w.first);
    MaxStep(Max(m, w.first), WidthTerms(geo, rows) + [w.first], w.second);
    assert (rows + [row])[..|rows|] == rows;
    assert WidthTerms(geo, rows) + [w.first] + [w.second] == WidthTerms(geo, rows + [row]);
  }

  /** Folding a row's two height candidates extends the running max to that row. */
  lemma FoldHeight(geo: Geometry, rows: seq<Row>, row: Row, m: real)
    requires IsRunningMax(m, HeightTerms(geo, rows))
    ensures IsRunningMax(FoldMax(m, HeightCandidates(geo, row)), HeightTerms(geo, rows + [row]))
  {
    var h := HeightCandidates(geo, row);
    MaxStep(m, HeightTerms(geo, rows), h.first);
    MaxStep(Max(m, h.first), HeightTerms(geo, rows) + [h.first], h.second);
    assert (rows + [row])[..|rows|] == rows;
    assert HeightTerms(geo, rows) + [h.first] + [h.second] == HeightTerms(geo, rows + [row]);
  }

  /** Appending the placement of the next row keeps every earlier row placed. */
  lemma PlacedExtend(layout: seq<nat>, geo: Geometry, rows: seq<Row>, row: Row)
    requires |layout| != 1 && |rows| < |layout|
    requires forall j :: 0 <= j < |rows| ==> PlacedAt(layout, geo, rows[j], j)
    requires PlacedAt(layout, geo, row, |rows|)
    ensures forall j :: 0 <= j < |rows| + 1 ==> PlacedAt(layout, geo, (rows + [row])[j], j)
  {
    assert forall j :: 0 <= j < |rows| ==> (rows + [row])[j] == rows[j];
  }

  /** What `updateRows` has established after placing the first `|rows|` rows. */
  ghost predicate Progress(layout: seq<nat>, geo: Geometry, rows: seq<Row>, maxWidth: real, maxHeight: real)
    requires |layout| != 1
  {
    && |rows| <= |layout|
    && (forall j :: 0 <= j < |rows| ==> PlacedAt(layout, geo, rows[j], j))
    && IsRunningMax(maxWidth, WidthTerms(geo, rows))
    && IsRunningMax(maxHeight, HeightTerms(geo, rows))
  }

  /** One iteration of `updateRows`: placing the next row and folding its four terms
      with `Math.max` keeps the progress invariant. */
  lemma RowStep(layout: seq<nat>, geo: Geometry, rows: seq<Row>, row: Row, maxWidth: real, maxHeight: real)
    requires |layout| != 1 && |rows| < |layout|
    requires Progress(layout, geo, rows, maxWidth, maxHeight)
    requires PlacedAt(layout, geo, row, |rows|)
    ensures Progress(layout, geo, rows + [row],
      FoldMax(maxWidth, WidthCandidates(geo, row)), FoldMax(maxHeight, HeightCandidates(geo, row)))
  {
    PlacedExtend(layout, geo, rows, row);
    FoldWidth(geo, rows, row, maxWidth);
    FoldHeight(geo, rows, row, maxHeight);
  }

  /** `updateRows`. */
  method UpdateRows(props: Props, geo: Geometry) returns (st: RootState)
    requires |props.layout| != 1
    ensures Placed(props.layout, geo, st.rows)
    ensures IsRunningMax(st.maxWidth, WidthTerms(geo, st.rows))
    ensures IsRunningMax(st.maxHeight, HeightTerms(geo, st.rows))
    ensures st.selectedId == props.selectedId
  {
    var layout := props.layout;
    var rows: seq<Row> := [];
    var deltaAngle := DeltaAngle(|layout|);
    var maxHeight := 0.0;
    var maxWidth := 0.0;
    var startRadius := StartRadius(geo);
    var indexOffset: nat := 0;
    var i := 0;
    while i < |layout|
      invariant 0 <= i <= |layout|
      invariant |rows| == i
      invariant indexOffset == 2 * Sum(layout[..i])
      invariant Progress(layout, geo, rows, maxWidth, maxHeight)
    {
      var row := Row(indexOffset, -geo.seatSize, startRadius as real, layout[i], deltaAngle * (i as real));
      var width := WidthCandidates(geo, row);
      var height := HeightCandidates(geo, row);
      RowStep(layout, geo, rows, row, maxWidth, maxHeight);
      SumSnoc(layout, i);
      maxWidth := FoldMax(maxWidth, width);
      maxHeight := FoldMax(maxHeight, height);
      rows := rows + [row];
      indexOffset := indexOffset + layout[i] * 2;
      i := i + 1;
    }
    assert layout[..i] == layout;
    st := RootState(props.selectedId, rows, maxWidth, maxHeight);
  }

  /** `onSeatClicked`: select the seat and hand the same id to `onSeatSelected`. */
  function OnSeatClicked(st: RootState, id: string): (r: (RootState, string))
    ensures r.0.selectedId == Some(id)
    ensures r.0.rows == st.rows && r.0.maxWidth == st.maxWidth && r.0.maxHeight == st.maxHeight
    ensures r.1 == id
  {
    (st.(selectedId := Some(id)), id)
  }

  /** The prefix sums of the layout grow by one entry at a time. */
  lemma SumSnoc(layout: seq<nat>, i: nat)
    requires i < |layout|
    ensures Sum(layout[..i + 1]) == Sum(layout[..i]) + layout[i]
  {
    assert layout[..i + 1][..i] == layout[..i];
  }

  /** Prefix sums never decrease. */
  lemma {:induction false} SumMonotone(layout: seq<nat>, i: nat, j: nat)
    requires i <= j <= |layout|
    ensures Sum(layout[..i]) <= Sum(layout[..j])
    decreases j - i
  {
    if i < j {
      SumMonotone(layout, i, j - 1);
      SumSnoc(layout, j - 1);
    }
  }

  /** Row 0 starts at seat index 0, and each row starts where the previous one's
      `2 * seatGroups` seat indices end. */
  lemma OffsetsAreContiguous(layout: seq<nat>, geo: Geometry, rows: seq<Row>)
    requires |layout| != 1 && Placed(layout, geo, rows)
    ensures |rows| > 0 ==> rows[0].indexOffset == 0
    ensures forall i :: 0 < i < |rows| ==>
      rows[i].indexOffset == rows[i - 1].indexOffset + 2 * rows[i - 1].seatGroups
  {
    if |rows| > 0 {
      assert PlacedAt(layout, geo, rows[0], 0);
      assert layout[..0] == [];
    }
    forall i | 0 < i < |rows|
      ensures rows[i].indexOffset == rows[i - 1].indexOffset + 2 * rows[i - 1].seatGroups
    {
      assert PlacedAt(layout, geo, rows[i], i);
      assert PlacedAt(layout, geo, rows[i - 1], i - 1);
      SumSnoc(layout, i - 1);
    }
  }

  /** The seat-index range `[indexOffset, indexOffset + 2 * seatGroups)` of a row ends
      no later than any later row's range begins. */
  lemma RangesAreDisjoint(layout: seq<nat>, geo: Geometry, rows: seq<Row>, i: nat, j: nat)
    requires |layout| != 1 && Placed(layout, geo, rows)
    requires i < j < |rows|
    ensures rows[i].indexOffset + 2 * rows[i].seatGroups <= rows[j].indexOffset
  {
    assert PlacedAt(layout, geo, rows[i], i);
    assert PlacedAt(layout, geo, rows[j], j);
    SumSnoc(layout, i);
    SumMonotone(layout, i + 1, j);
  }

  /** A seat index lies in the range of row `i`. */
  predicate InRange(rows: seq<Row>, i: nat, k: nat)
    requires i < |rows|
  {
    rows[i].indexOffset <= k < rows[i].indexOffset + 2 * rows[i].seatGroups
  }

  /** Every seat index below `2 * Sum(layout)` belongs to some row, and the last row's range ends exactly there. */
  lemma {:induction false} RangesCover(layout: seq<nat>, geo: Geometry, rows: seq<Row>, k: nat)
    requires |layout| != 1 && Placed(layout, geo, rows)
    requires k < 2 * Sum(layout)
    ensures exists i :: 0 <= i < |rows| && InRange(rows, i, k)
  {
    var i := PrefixContaining(layout, k);
    assert PlacedAt(layout, geo, rows[i], i);
    SumSnoc(layout, i);
    assert InRange(rows, i, k);
  }

  /** The index of the layout entry whose doubled prefix-sum interval contains `k`. */
  function PrefixContaining(layout: seq<nat>, k: nat): (i: nat)
    requires k < 2 * Sum(layout)
    ensures i < |layout|
    ensures 2 * Sum(layout[..i]) <= k < 2 * Sum(layout[..i]) + 2 * layout[i]
    decreases |layout|
  {
    var n := |layout|;
    var init := layout[..n - 1];
    assert layout == init + [layout[n - 1]];
    if k < 2 * Sum(init) then
      var i := PrefixContaining(init, k);
      assert init[..i] == layout[..i];
      i
    else
      n - 1
  }

  /** The last row's range ends at twice the total table count. */
  lemma RangesEnd(layout: seq<nat>, geo: Geometry, rows: seq<Row>)
    requires |layout| != 1 && Placed(layout, geo, rows) && |rows| > 0
    ensures rows[|rows| - 1].indexOffset + 2 * rows[|rows| - 1].seatGroups == 2 * Sum(layout)
  {
    var n := |rows|;
    assert PlacedAt(layout, geo, rows[n - 1], n - 1);
    SumSnoc(layout, n - 1);
    assert layout[..n] == layout;
  }

  /** Seat index `indexOffset + position` names one seat of one row only. */
  lemma SeatIndexIsUnique(layout: seq<nat>, geo: Geometry, rows: seq<Row>, i: nat, a: nat, j: nat, b: nat)
    requires |layout| != 1 && Placed(layout, geo, rows)
    requires i < |rows| && j < |rows|
    requires a < 2 * rows[i].seatGroups && b < 2 * rows[j].seatGroups
    requires rows[i].indexOffset + a == rows[j].indexOffset + b
    ensures i == j && a == b
  {
    if i < j {
      RangesAreDisjoint(layout, geo, rows, i, j);
    } else if j < i {
      RangesAreDisjoint(layout, geo, rows, j, i);
    }
  }

  /** The angle of row `i` under the fan spacing. */
  lemma RowAngle(layout: seq<nat>, geo: Geometry, rows: seq<Row>, i: nat)
    requires |layout| >= 2 && Placed(layout, geo, rows) && i < |rows|
    ensures rows[i].angle == 90.0 * (i as real) / ((|rows| - 1) as real)
  {
    assert PlacedAt(layout, geo, rows[i], i);
    var m := (|rows| - 1) as real;
    assert rows[i].angle == (90.0 / m) * (i as real);
  }

  /** With two or more rows the angles fan out over the quarter circle:
      row `i` sits at `90 * i / (n - 1)` degrees, from 0 up to 90, strictly increasing. */
  lemma AnglesFanOut(layout: seq<nat>, geo: Geometry, rows: seq<Row>)
    requires |layout| >= 2 && Placed(layout, geo, rows)
    ensures forall i :: 0 <= i < |rows| ==> rows[i].angle == 90.0 * (i as real) / ((|rows| - 1) as real)
    ensures rows[0].angle == 0.0 && rows[|rows| - 1].angle == 90.0
    ensures forall i, j :: 0 <= i < j < |rows| ==> rows[i].angle < rows[j].angle
  {
    var n := |rows|;
    forall i | 0 <= i < n ensures rows[i].angle == 90.0 * (i as real) / ((n - 1) as real) {
      RowAngle(layout, geo, rows, i);
    }
    forall i, j | 0 <= i < j < n ensures rows[i].angle < rows[j].angle {
      RowAngle(layout, geo, rows, i);
      RowAngle(layout, geo, rows, j);
      FractionIncreases(90.0, (n - 1) as real, i as real, j as real);
    }
  }

  /** `a * x / m` grows with `x` for positive `a` and `m`. */
  lemma FractionIncreases(a: real, m: real, x: real, y: real)
    requires a > 0.0 && m > 0.0 && x < y
    ensures a * x / m < a * y / m
  {
    assert a * y - a * x == a * (y - x);
    assert a * (y - x) > 0.0;
    assert a * y / m - a * x / m == (a * y - a * x) / m;
  }

  /** The rows and the bounding box depend only on the layout and the geometry: any two
      results `updateRows` may give for the same layout agree on them, whatever the
      occupied list or the selection. */
  lemma GeometryIsDetermined(layout: seq<nat>, geo: Geometry, a: RootState, b: RootState)
    requires |layout| != 1
    requires Placed(layout, geo, a.rows) && Placed(layout, geo, b.rows)
    requires IsRunningMax(a.maxWidth, WidthTerms(geo, a.rows)) && IsRunningMax(b.maxWidth, WidthTerms(geo, b.rows))
    requires IsRunningMax(a.maxHeight, HeightTerms(geo, a.rows)) && IsRunningMax(b.maxHeight, HeightTerms(geo, b.rows))
    ensures a.rows == b.rows && a.maxWidth == b.maxWidth && a.maxHeight == b.maxHeight
  {
    assert forall i :: 0 <= i < |a.rows| ==> PlacedAt(layout, geo, a.rows[i], i) && PlacedAt(layout, geo, b.rows[i], i);
    assert a.rows == b.rows;
    RunningMaxIsUnique(a.maxWidth, b.maxWidth, WidthTerms(geo, a.rows));
    RunningMaxIsUnique(a.maxHeight, b.maxHeight, HeightTerms(geo, a.rows));
  }

  /** The two-row example: layout [2, 3] puts row 0 at 0 degrees with seat indices 0..3
      and row 1 at 90 degrees with seat indices 4..9. */
  lemma TwoRowExample(geo: Geometry, rows: seq<Row>)
    requires Placed([2, 3], geo, rows)
    ensures rows[0].indexOffset == 0 && rows[0].seatGroups == 2 && rows[0].angle == 0.0
    ensures rows[1].indexOffset == 4 && rows[1].seatGroups == 3 && rows[1].angle == 90.0
  {
    assert PlacedAt([2, 3], geo, rows[0], 0);
    assert PlacedAt([2, 3], geo, rows[1], 1);
    assert [2, 3][..1] == [2];
    assert [2][..0] == [];
  }
}
