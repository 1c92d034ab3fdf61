/** The arithmetic of `SpatialGrid` (src/spatialGrid.cpp): resolution per axis,
    the per-axis cell of a position, and the two ways the source turns cell
    coordinates into a position in the flat cell array. */
module GridIndexing {

  /** Integer cell coordinates; `GridCell` stores them in a `glm::vec3`. */
  datatype Coord = Coord(x: int, y: int, z: int)

  function Pow2(k: nat): (r: nat)
    ensures r >= 1
  {
    if k == 0 then 1 else 2 * Pow2(k - 1)
  }

  lemma {:induction false} Pow2AboveExponent(k: nat)
    ensures Pow2(k) >= k + 1
  {
    if k > 0 {
      Pow2AboveExponent(k - 1);
    }
  }

  /** `std::ceil` on the reals. */
  function Ceil(e: real): (c: int)
    ensures (c - 1) as real < e <= c as real
  {
    -((-e).Floor)
  }

  /** Cells per axis chosen by `initialize` for an axis of extent e >= 0:
      2^(ceil(e)+2). It is at least 4 and exceeds 4e, so a cell is never
      longer than a quarter unit. */
  function AxisResolution(e: real): (r: nat)
    requires e >= 0.0
    ensures r >= 4
    ensures 4.0 * e < r as real
  {
    var c := Ceil(e);
    Pow2AboveExponent(c);
    assert Pow2(c + 2) == 4 * Pow2(c);
    Pow2(c + 2)
  }

  /** Length of one cell along an axis of extent e split into res cells. */
  function CellSize(e: real, res: nat): real
    requires res >= 1
  {
    e / res as real
  }

  lemma MulRealMonotone(a: real, b: real, s: real)
    requires s > 0.0 && a <= b
    ensures a * s <= b * s
  {
  }

  lemma MulRealStrict(a: real, b: real, s: real)
    requires s > 0.0 && a < b
    ensures a * s < b * s
  {
  }

  lemma FloorScaled(q: real, size: real)
    requires size > 0.0
    ensures (q.Floor as real) * size <= q * size < ((q.Floor + 1) as real) * size
  {
    MulRealMonotone(q.Floor as real, q, size);
    MulRealStrict(q, (q.Floor + 1) as real, size);
  }

  /** The quotient getCellIndex truncates: pos divided by the cell size lies in
      [0, res], and reaches res exactly at the upper edge. */
  lemma CellQuotient(pos: real, e: real, res: nat)
    requires e > 0.0 && res >= 1 && 0.0 <= pos <= e
    ensures CellSize(e, res) > 0.0
    ensures pos / CellSize(e, res) * CellSize(e, res) == pos
    ensures 0.0 <= pos / CellSize(e, res) <= res as real
    ensures pos / CellSize(e, res) == res as real <==> pos == e
  {
    var size, q, n := CellSize(e, res), pos / CellSize(e, res), res as real;
    assert size * n == e;
    assert q * size == pos;
    if q > n {
      MulRealStrict(n, q, size);
    }
    if q < 0.0 {
      MulRealStrict(q, 0.0, size);
    }
    if q == n {
      assert pos == e;
    }
    if pos == e {
      if q < n {
        MulRealStrict(q, n, size);
      }
    }
  }

  /** The truncated quotient lies in [0, res], equals res only at the upper
      edge, and below it names the cell interval that holds pos. */
  lemma TruncatedQuotient(pos: real, e: real, res: nat)
    requires e > 0.0 && res >= 1 && 0.0 <= pos <= e
    ensures 0 <= (pos / CellSize(e, res)).Floor <= res
    ensures (pos / CellSize(e, res)).Floor == res <==> pos == e
    ensures var t := (pos / CellSize(e, res)).Floor;
      (t as real) * CellSize(e, res) <= pos < ((t + 1) as real) * CellSize(e, res)
  {
    var size := CellSize(e, res);
    var q := pos / size;
    CellQuotient(pos, e, res);
    FloorScaled(q, size);
    assert q * size == pos;
  }

  /** Per-axis cell of getCellIndex: pos divided by the cell size, truncated,
      and lowered to res - 1 when it equals res. The result is always a valid
      cell; below the upper edge it is the cell whose interval holds pos, and at
      the upper edge it is the last cell. */
  function AxisCell(pos: real, e: real, res: nat): (c: nat)
    requires e > 0.0 && res >= 1 && 0.0 <= pos <= e
    ensures c < res
    ensures pos < e ==>
      (c as real) * CellSize(e, res) <= pos < ((c + 1) as real) * CellSize(e, res)
    ensures pos == e ==> c == res - 1
  {
    TruncatedQuotient(pos, e, res);
    var t := (pos / CellSize(e, res)).Floor;
    if t == res then res - 1 else t
  }

  predicate InGrid(c: Coord, w: nat, h: nat, d: nat)
  {
    0 <= c.x < w && 0 <= c.y < h && 0 <= c.z < d
  }

  /** Position in the cell array as both getCellIndex overloads compute it:
      x + y*(W*D) + z*D. */
  function CellIndex(c: Coord, w: nat, d: nat): (k: int)
    ensures c.x >= 0 && c.y >= 0 && c.z >= 0 ==> k >= 0
  {
    if c.y >= 0 && c.z >= 0 then
      MulMonotone(0, c.y, w * d);
      MulMonotone(0, c.z, d);
      c.x + c.y * (w * d) + c.z * d
    else
      c.x + c.y * (w * d) + c.z * d
  }

  /** Position in the cell array as initialize and getCellId compute it:
      y*(W*D) + z*W + x. */
  function LinearId(c: Coord, w: nat, d: nat): (id: int)
    ensures 0 <= c.x < w && 0 <= c.z < d ==> c.y * (w * d) <= id < c.y * (w * d) + w * d
  {
    if 0 <= c.x < w && 0 <= c.z < d then
      MulMonotone(0, c.z, w);
      MulMonotone(c.z, d - 1, w);
      PredecessorTimes(d, w);
      Commuted(w, 1, d);
      c.y * (w * d) + c.z * w + c.x
    else
      c.y * (w * d) + c.z * w + c.x
  }

  lemma MulMonotone(a: int, b: int, k: int)
    requires a <= b && k >= 0
    ensures a * k <= b * k
  {
  }

  /** A coordinate inside the grid has an id inside the cell array. */
  lemma LinearIdBounds(c: Coord, w: nat, h: nat, d: nat)
    requires InGrid(c, w, h, d)
    ensures 0 <= LinearId(c, w, d) < w * h * d
  {
    var wd := w * d;
    MulMonotone(c.z, d - 1, w);
    MulMonotone(c.y, h - 1, wd);
    PredecessorTimes(d, w);
    PredecessorTimes(h, wd);
    Commuted(w, h, d);
  }

  lemma PredecessorTimes(a: int, m: int)
    ensures (a - 1) * m + m == a * m
  {
  }

  lemma Commuted(w: int, h: int, d: int)
    ensures d * w == w * d && w * h * d == h * (w * d)
  {
  }

  /** getCellId: -1 for coordinates outside [0, res) on some axis, otherwise an
      id inside the cell array. */
  function CellId(c: Coord, w: nat, h: nat, d: nat): (id: int)
    ensures id == -1 <==> !InGrid(c, w, h, d)
    ensures id != -1 ==> 0 <= id < w * h * d
  {
    if !InGrid(c, w, h, d) then -1
    else
      LinearIdBounds(c, w, h, d);
      LinearId(c, w, d)
  }

  lemma DivModUnique(a: int, m: int, q: int, r: int)
    requires m > 0 && 0 <= r < m && a == q * m + r
    ensures a / m == q && a % m == r
  {
    var q', r' := a / m, a % m;
    assert a == q' * m + r';
    if q' < q {
      MulMonotone(q' + 1, q, m);
      assert false;
    } else if q' > q {
      MulMonotone(q + 1, q', m);
      assert false;
    }
  }

  lemma DivBelow(a: int, m: int, k: int)
    requires m > 0 && k >= 0 && 0 <= a < k * m
    ensures a / m < k
  {
    if a / m >= k {
      MulMonotone(k, a / m, m);
      assert false;
    }
  }

  /** getCellPosition: y = floor(i / (W*D)), then x and z from the remainder.
      The coordinates are in range on the x and z axes, and the id of the
      result is i again. */
  function CellPosition(i: nat, w: nat, d: nat): (c: Coord)
    requires w >= 1 && d >= 1
    ensures 0 <= c.x < w && 0 <= c.z < d && 0 <= c.y
    ensures LinearId(c, w, d) == i
  {
    var y := i / (w * d);
    var rest := i - y * (w * d);
    assert rest == i % (w * d);
    DivBelow(rest, w, d);
    Coord(rest % w, y, rest / w)
  }

  /** getCellPosition undoes getCellId on every coordinate of the grid. */
  lemma CellPositionOfId(c: Coord, w: nat, h: nat, d: nat)
    requires InGrid(c, w, h, d)
    ensures CellPosition(LinearId(c, w, d), w, d) == c
  {
    var r := c.z * w + c.x;
    MulMonotone(c.z, d - 1, w);
    assert r < w * d;
    DivModUnique(LinearId(c, w, d), w * d, c.y, r);
    DivModUnique(r, w, c.z, c.x);
  }

  /** The id is one-to-one on the grid. */
  lemma LinearIdInjective(a: Coord, b: Coord, w: nat, h: nat, d: nat)
    requires InGrid(a, w, h, d) && InGrid(b, w, h, d)
    requires LinearId(a, w, d) == LinearId(b, w, d)
    ensures a == b
  {
    CellPositionOfId(a, w, h, d);
    CellPositionOfId(b, w, h, d);
  }

  /** (y, z, x) order of coordinates: the order initialize creates cells in. */
  predicate ScanBefore(a: Coord, b: Coord)
  {
    a.y < b.y || (a.y == b.y && (a.z < b.z || (a.z == b.z && a.x < b.x)))
  }

  /** Cells earlier in (y, z, x) order have smaller ids. */
  lemma LinearIdOrdered(a: Coord, b: Coord, w: nat, h: nat, d: nat)
    requires InGrid(a, w, h, d) && InGrid(b, w, h, d) && ScanBefore(a, b)
    ensures LinearId(a, w, d) < LinearId(b, w, d)
  {
    var wd := w * d;
    MulMonotone(a.z, d - 1, w);
    MulMonotone(0, b.z, w);
    assert a.z * w + a.x <= wd - 1 by {
      assert (d - 1) * w + (w - 1) == wd - 1;
    }
    if a.y < b.y {
      MulMonotone(a.y + 1, b.y, wd);
      assert (a.y + 1) * wd == a.y * wd + wd;
    } else {
      assert a.y == b.y;
      if a.z < b.z {
        MulMonotone(a.z + 1, b.z, w);
        assert (a.z + 1) * w == a.z * w + w;
      }
    }
  }

  /** The two combinations agree on every coordinate of the grid exactly when
      the grid is as wide as it is deep (given at least two layers in z). */
  lemma CellIndexAgreesIffSquare(w: nat, h: nat, d: nat)
    requires w >= 1 && h >= 1 && d >= 2
    ensures (forall c :: InGrid(c, w, h, d) ==> CellIndex(c, w, d) == LinearId(c, w, d)) <==> w == d
  {
    if w != d {
      var c := Coord(0, 0, 1);
      assert InGrid(c, w, h, d);
      assert CellIndex(c, w, d) == d && LinearId(c, w, d) == w;
    }
  }

  /** When the grid is no deeper than it is wide, getCellIndex stays inside the
      cell array. */
  lemma CellIndexBounds(c: Coord, w: nat, h: nat, d: nat)
    requires InGrid(c, w, h, d) && d <= w
    ensures 0 <= CellIndex(c, w, d) < w * h * d
  {
    var wd := w * d;
    var low := c.x + c.z * d;
    assert 0 <= low <= wd - 1 by {
      MulMonotone(0, c.z, d);
      MulMonotone(c.z, d - 1, d);
      MulMonotone(d, w, d - 1);
      assert (d - 1) * w + (w - 1) == wd - 1;
    }
    ProductRegrouped(w, h, d);
    MulMonotone(0, c.y, wd);
    MulMonotone(c.y, h - 1, wd);
    assert CellIndex(c, w, d) == c.y * wd + low;
  }

  lemma ProductRegrouped(w: int, h: int, d: int)
    ensures w * h * d == (h - 1) * (w * d) + w * d
  {
  }

  /** getCellIndex stays inside the cell array for every coordinate of the grid
      exactly when the grid is no deeper than it is wide. */
  lemma CellIndexInBoundsIffNotDeeper(w: nat, h: nat, d: nat)
    requires w >= 1 && h >= 1 && d >= 1
    ensures (forall c :: InGrid(c, w, h, d) ==> CellIndex(c, w, d) < w * h * d) <==> d <= w
  {
    if d <= w {
      forall c | InGrid(c, w, h, d)
        ensures CellIndex(c, w, d) < w * h * d
      {
        CellIndexBounds(c, w, h, d);
      }
    } else {
      var c := Coord(w - 1, h - 1, d - 1);
      assert InGrid(c, w, h, d);
      MulMonotone(1, d - w, d - 1);
      assert (d - w) * (d - 1) >= 1;
      assert CellIndex(c, w, d) - w * h * d == (d - w) * (d - 1) - 1;
    }
  }

}
