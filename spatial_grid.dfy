/** The uniform grid of src/spatialGrid.cpp: a domain split into a power-of-two
    number of cells per axis, each cell holding the points and triangles filed
    in it. */
module SpatialGrids {
  import opened Wrappers
  import opened Vectors
  import opened GridIndexing
  import opened GridTypes

  predicate NonNegative(v: Volume)
  {
    v.width >= 0.0 && v.height >= 0.0 && v.depth >= 0.0
  }

  predicate Positive(v: Volume)
  {
    v.width > 0.0 && v.height > 0.0 && v.depth > 0.0
  }

  /** A position between the origin and the far corner of the domain. */
  predicate InDomain(p: Vec3, domain: Volume)
  {
    0.0 <= p.x <= domain.width && 0.0 <= p.y <= domain.height && 0.0 <= p.z <= domain.depth
  }

  /** The resolution initialize derives from a domain: 2^(ceil(e) + 2) cells
      on each axis. */
  function ResolutionOf(domain: Volume): (r: Volume)
    requires NonNegative(domain)
    ensures r.width >= 4.0 && r.height >= 4.0 && r.depth >= 4.0
    ensures 4.0 * domain.width < r.width && 4.0 * domain.height < r.height
    ensures 4.0 * domain.depth < r.depth
  {
    Volume(AxisResolution(domain.width) as real, AxisResolution(domain.height) as real,
           AxisResolution(domain.depth) as real)
  }

  /** static_cast<uint> of a resolution axis. */
  function ToUint(r: real): nat
  {
    if r < 0.0 then 0 else r.Floor
  }

  /** The mean of a triangle's corners, the position insertPolygon files it
      under: three times it is the sum of the corners. */
  function Centroid(t: Triangle): (g: Vec3)
    ensures 3.0 * g.x == t.v0.x + t.v1.x + t.v2.x
    ensures 3.0 * g.y == t.v0.y + t.v1.y + t.v2.y
    ensures 3.0 * g.z == t.v0.z + t.v1.z + t.v2.z
  {
    Vec3((t.v0.x + t.v1.x + t.v2.x) / 3.0, (t.v0.y + t.v1.y + t.v2.y) / 3.0,
         (t.v0.z + t.v1.z + t.v2.z) / 3.0)
  }

  /** A triangle whose corners lie in the domain has its centroid in the domain. */
  lemma CentroidInDomain(t: Triangle, domain: Volume)
    requires InDomain(t.v0, domain) && InDomain(t.v1, domain) && InDomain(t.v2, domain)
    ensures InDomain(Centroid(t), domain)
  {
  }

  /** Cell i carries id i and in-grid coordinates whose linear id is i. */
  ghost predicate Numbered(cells: seq<GridCell>, w: nat, h: nat, d: nat)
  {
    forall i :: 0 <= i < |cells| ==>
      cells[i].id == i && InGrid(cells[i].position, w, h, d) && LinearId(cells[i].position, w, d) == i
  }

  /** In a numbered grid, the cell whose linear id a coordinate has sits at that
      coordinate. */
  lemma CellAtLinearId(cells: seq<GridCell>, w: nat, h: nat, d: nat, c: Coord)
    requires Numbered(cells, w, h, d) && |cells| == w * h * d && InGrid(c, w, h, d)
    ensures 0 <= LinearId(c, w, d) < |cells|
    ensures cells[LinearId(c, w, d)].position == c
  {
    LinearIdBounds(c, w, h, d);
    var k := LinearId(c, w, d);
    LinearIdInjective(cells[k].position, c, w, h, d);
  }

  /** Where the getCellIndex formula lands in a numbered grid: inside the
      array when D <= W, and on the cell at the coordinate when W == D. */
  lemma CellIndexLands(cells: seq<GridCell>, w: nat, h: nat, d: nat, c: Coord)
    requires Numbered(cells, w, h, d) && |cells| == w * h * d && InGrid(c, w, h, d)
    ensures 0 <= CellIndex(c, w, d)
    ensures d <= w ==> CellIndex(c, w, d) < |cells|
    ensures w == d ==> CellIndex(c, w, d) == LinearId(c, w, d) < |cells|
    ensures w == d ==> cells[CellIndex(c, w, d)].position == c
  {
    if d <= w {
      CellIndexBounds(c, w, h, d);
    }
    if w == d {
      assert CellIndex(c, w, d) == LinearId(c, w, d);
      CellAtLinearId(cells, w, h, d, c);
    }
  }

  /** Coordinates within one step on every axis. */
  predicate Adjacent(p: Coord, c: Coord)
  {
    -1 <= p.x - c.x <= 1 && -1 <= p.y - c.y <= 1 && -1 <= p.z - c.z <= 1
  }

  /** Where getNeighborCells visits an adjacent coordinate: y offset outermost,
      then z, then x, each from -1 to 1. */
  function ScanOffset(p: Coord, c: Coord): int
  {
    9 * (p.y - c.y + 1) + 3 * (p.z - c.z + 1) + (p.x - c.x + 1)
  }

  lemma ScanOffsetRange(p: Coord, c: Coord)
    requires Adjacent(p, c)
    ensures 0 <= ScanOffset(p, c) < 27
  {
  }

  /** Different adjacent coordinates are visited at different steps, and a
      coordinate visited earlier comes earlier in (y, z, x) order. */
  lemma ScanOffsetOrder(p: Coord, q: Coord, c: Coord)
    requires Adjacent(p, c) && Adjacent(q, c)
    ensures ScanOffset(p, c) == ScanOffset(q, c) ==> p == q
    ensures ScanOffset(p, c) < ScanOffset(q, c) ==> ScanBefore(p, q)
  {
  }

  /** A non-empty cell adjacent to c. */
  predicate Neighbour(cell: GridCell, c: Coord)
  {
    Adjacent(cell.position, c) && !cell.IsEmpty()
  }

  /** After the first k steps of the neighbour scan around c, out lists, in
      increasing order, exactly the ids of the non-empty cells the scan has
      visited. */
  ghost predicate Collected(cells: seq<GridCell>, c: Coord, out: seq<nat>, k: int)
  {
    |out| <= k
    && (forall a :: 0 <= a < |out| ==>
          out[a] < |cells| && Neighbour(cells[out[a]], c) && ScanOffset(cells[out[a]].position, c) < k)
    && (forall a, b :: 0 <= a < b < |out| ==> out[a] < out[b])
    && (forall j: nat :: j < |cells| && Neighbour(cells[j], c) && ScanOffset(cells[j].position, c) < k ==> j in out)
  }

  /** One step of the neighbour scan: visiting the coordinate p at step k adds
      the id of its cell when that cell exists and is not empty. */
  lemma CollectStep(cells: seq<GridCell>, w: nat, h: nat, d: nat, c: Coord, out: seq<nat>, p: Coord, id: int)
    requires Numbered(cells, w, h, d) && |cells| == w * h * d
    requires Adjacent(p, c) && Collected(cells, c, out, ScanOffset(p, c))
    requires id == CellId(p, w, h, d)
    ensures id != -1 ==> 0 <= id < |cells|
    ensures id != -1 && !cells[id].IsEmpty() ==> Collected(cells, c, out + [id], ScanOffset(p, c) + 1)
    ensures id == -1 || cells[id].IsEmpty() ==> Collected(cells, c, out, ScanOffset(p, c) + 1)
  {
    var k := ScanOffset(p, c);
    if id != -1 {
      CellAtLinearId(cells, w, h, d, p);
      EarlierIdsSmaller(cells, w, h, d, c, out, p);
    }
    var next := if id != -1 && !cells[id].IsEmpty() then out + [id] else out;
    forall j: nat | j < |cells| && Neighbour(cells[j], c) && ScanOffset(cells[j].position, c) < k + 1
      ensures j in next
    {
      if ScanOffset(cells[j].position, c) == k {
        ScanOffsetOrder(cells[j].position, p, c);
        assert cells[j].position == p;
        assert id == j;
      }
    }
  }

  /** The ids listed before the scan reaches p are all smaller than p's id. */
  lemma EarlierIdsSmaller(cells: seq<GridCell>, w: nat, h: nat, d: nat, c: Coord, out: seq<nat>, p: Coord)
    requires Numbered(cells, w, h, d) && |cells| == w * h * d
    requires Adjacent(p, c) && Collected(cells, c, out, ScanOffset(p, c)) && InGrid(p, w, h, d)
    ensures forall a :: 0 <= a < |out| ==> out[a] < LinearId(p, w, d)
  {
    forall a | 0 <= a < |out|
      ensures out[a] < LinearId(p, w, d)
    {
      var q := cells[out[a]].position;
      ScanOffsetOrder(q, p, c);
      LinearIdOrdered(q, p, w, h, d);
    }
  }

  /** The cells initialize has created so far: numbered, empty, no triangles. */
  ghost predicate Created(grid: seq<GridCell>, w: nat, h: nat, d: nat)
  {
    Numbered(grid, w, h, d) && forall i :: 0 <= i < |grid| ==> grid[i].IsEmpty() && grid[i].polygons == []
  }

  /** Appending the cell for the next coordinate keeps the created cells numbered. */
  lemma CreateStep(grid: seq<GridCell>, w: nat, h: nat, d: nat, x: nat, y: nat, z: nat)
    requires Created(grid, w, h, d) && x < w && y < h && z < d
    requires |grid| == LinearId(Coord(x, y, z), w, d)
    ensures Created(grid + [NewCell(Coord(x, y, z), y * (w * d) + z * w + x)], w, h, d)
    ensures |grid + [NewCell(Coord(x, y, z), y * (w * d) + z * w + x)]| == LinearId(Coord(x + 1, y, z), w, d)
  {
  }

  /** At the end of the scan every adjacent non-empty cell has been listed. */
  lemma CollectDone(cells: seq<GridCell>, c: Coord, out: seq<nat>)
    requires Collected(cells, c, out, 27)
    ensures |out| <= 27
    ensures forall a, b :: 0 <= a < b < |out| ==> out[a] < out[b]
    ensures forall j: nat :: j in out <==> j < |cells| && Neighbour(cells[j], c)
  {
    forall j: nat | j < |cells| && Neighbour(cells[j], c)
      ensures j in out
    {
      ScanOffsetRange(cells[j].position, c);
    }
  }

  /** The innermost loop of initialize: the row of cells at (y, z), x ascending. */
  method CreateRow(grid: seq<GridCell>, w: nat, h: nat, d: nat, y: nat, z: nat) returns (next: seq<GridCell>)
    requires Created(grid, w, h, d) && y < h && z < d
    requires |grid| == y * (w * d) + z * w
    ensures Created(next, w, h, d) && |next| == |grid| + w
    ensures next[..|grid|] == grid
  {
    next := grid;
    var x := 0;
    while x < w
      invariant 0 <= x <= w
      invariant |next| == LinearId(Coord(x, y, z), w, d)
      invariant Created(next, w, h, d) && next[..|grid|] == grid
    {
      CreateStep(next, w, h, d, x, y, z);
      var id := y * (w * d) + z * w + x;
      next := next + [NewCell(Coord(x, y, z), id)];
      x := x + 1;
    }
  }

  /** Once every coordinate has its cell, cell i sits at CellPosition(i). */
  lemma CreatedAll(grid: seq<GridCell>, w: nat, h: nat, d: nat)
    requires Created(grid, w, h, d) && |grid| == h * (w * d)
    ensures |grid| == w * h * d
    ensures forall i :: 0 <= i < |grid| ==> grid[i] == NewCell(CellPosition(i, w, d), i)
  {
    assert w * h * d == h * (w * d);
    forall i | 0 <= i < |grid|
      ensures grid[i] == NewCell(CellPosition(i, w, d), i)
    {
      CellPositionOfId(grid[i].position, w, h, d);
    }
  }

  lemma Regroup(a: int, b: int, m: int)
    ensures a * m + m == (a + 1) * m
    ensures b * a == a * b
  {
  }

  class SpatialGrid {
    var resolution: Volume
    var domain: Volume
    var cells: seq<GridCell>

    /** Number of cells along x. */
    function Width(): nat
      reads this
    {
      ToUint(resolution.width)
    }

    /** Number of cells along y. */
    function Height(): nat
      reads this
    {
      ToUint(resolution.height)
    }

    /** Number of cells along z. */
    function Depth(): nat
      reads this
    {
      ToUint(resolution.depth)
    }

    /** The state initialize leaves: the resolution derived from the domain and
        one numbered cell per grid coordinate. */
    ghost predicate Valid()
      reads this
    {
      NonNegative(domain)
      && resolution == ResolutionOf(domain)
      && Width() >= 4 && Height() >= 4 && Depth() >= 4
      && |cells| == Width() * Height() * Depth()
      && Numbered(cells, Width(), Height(), Depth())
    }

    /** SpatialGrid(domain) */
    constructor (domain: Volume)
      requires NonNegative(domain)
      ensures Valid() && this.domain == domain
      ensures forall i :: 0 <= i < |cells| ==> cells[i] == NewCell(CellPosition(i, Width(), Depth()), i)
    {
      new;
      Initialize(domain);
    }

    /** initialize: derives the resolution and creates the cells in (y, z, x)
        order, each empty, with its coordinates and its linear id. */
    method Initialize(domain: Volume)
      requires NonNegative(domain)
      modifies this
      ensures Valid() && this.domain == domain
      ensures forall i :: 0 <= i < |cells| ==> cells[i] == NewCell(CellPosition(i, Width(), Depth()), i)
    {
      var w, h, d := AxisResolution(domain.width), AxisResolution(domain.height), AxisResolution(domain.depth);
      var grid: seq<GridCell> := [];
      var y := 0;
      while y < h
        invariant 0 <= y <= h
        invariant |grid| == y * (w * d)
        invariant Created(grid, w, h, d)
      {
        var z := 0;
        while z < d
          invariant 0 <= z <= d
          invariant |grid| == y * (w * d) + z * w
          invariant Created(grid, w, h, d)
        {
          grid := CreateRow(grid, w, h, d, y, z);
          Regroup(z, w, w);
          z := z + 1;
        }
        Regroup(y, d, w * d);
        assert d * w == w * d;
        y := y + 1;
      }
      CreatedAll(grid, w, h, d);
      this.domain := domain;
      resolution := ResolutionOf(domain);
      assert Width() == w && Height() == h && Depth() == d;
      cells := grid;
    }

    /** getSize: one cell per grid coordinate. */
    function Size(): (n: nat)
      reads this
      requires Valid()
      ensures n == Width() * Height() * Depth()
    {
      |cells|
    }

    /** insertPoint: appends the point to the point list of the cell at
        getCellIndex(position); no other cell and nothing else changes. */
    method InsertPoint(id: int, position: Vec3)
      requires Valid() && Positive(domain) && InDomain(position, domain)
      requires CellIndexOf(position) < |cells|
      modifies this
      ensures Valid() && domain == old(domain)
      ensures var k := CellIndexOf(position);
        cells == old(cells)[k := old(cells)[k].(points := old(cells)[k].points + [Point(id, position)])]
    {
      var k := CellIndexOf(position);
      var cell := cells[k];
      cells := cells[k := cell.(points := cell.points + [Point(id, position)])];
    }

    /** insertPolygon: appends the triangle to the polygon list of the cell
        holding its centroid; no other cell and nothing else changes. */
    method InsertPolygon(id: int, vertices: Triangle)
      requires Valid() && Positive(domain) && InDomain(Centroid(vertices), domain)
      requires CellIndexOf(Centroid(vertices)) < |cells|
      modifies this
      ensures Valid() && domain == old(domain)
      ensures var k := CellIndexOf(Centroid(vertices));
        cells == old(cells)[k := old(cells)[k].(polygons := old(cells)[k].polygons + [GridPolygon(id, vertices)])]
    {
      var k := CellIndexOf(Centroid(vertices));
      var cell := cells[k];
      cells := cells[k := cell.(polygons := cell.polygons + [GridPolygon(id, vertices)])];
    }

    /** getCell: the cell with that id, or nothing (std::out_of_range) past the
        end of the grid. */
    function GetCell(index: nat): (r: Option<GridCell>)
      reads this
      requires Valid()
      ensures r.Some? <==> index < |cells|
      ensures r.Some? ==> r.value.id == index && r.value.position == CellPosition(index, Width(), Depth())
    {
      if index < |cells| then
        CellPositionOfId(cells[index].position, Width(), Height(), Depth());
        Some(cells[index])
      else None
    }

    /** The per-axis cell coordinates getCellIndex computes for a position of
        the domain: always inside the grid. */
    function CellCoordOf(position: Vec3): (c: Coord)
      reads this
      requires Valid() && Positive(domain) && InDomain(position, domain)
      ensures InGrid(c, Width(), Height(), Depth())
    {
      Coord(AxisCell(position.x, domain.width, Width()),
            AxisCell(position.y, domain.height, Height()),
            AxisCell(position.z, domain.depth, Depth()))
    }

    /** getCellIndex(position): x + y*(W*D) + z*D over the position's cell
        coordinates. The result is a valid cell index whenever D <= W, and it
        is the index of the cell at those coordinates whenever W == D. */
    function CellIndexOf(position: Vec3): (k: nat)
      reads this
      requires Valid() && Positive(domain) && InDomain(position, domain)
      ensures Depth() <= Width() ==> k < |cells|
      ensures Width() == Depth() ==> k < |cells| && cells[k].position == CellCoordOf(position)
    {
      var c := CellCoordOf(position);
      CellIndexLands(cells, Width(), Height(), Depth(), c);
      CellIndex(c, Width(), Depth())
    }

    /** getCellIndex(x, y, z): the same formula on given coordinates. */
    function CellIndexAt(x: nat, y: nat, z: nat): (k: nat)
      reads this
      requires Valid()
      ensures InGrid(Coord(x, y, z), Width(), Height(), Depth()) && Depth() <= Width() ==> k < |cells|
      ensures InGrid(Coord(x, y, z), Width(), Height(), Depth()) && Width() == Depth() ==>
        k < |cells| && cells[k].position == Coord(x, y, z)
    {
      var c := Coord(x, y, z);
      if InGrid(c, Width(), Height(), Depth()) then
        CellIndexLands(cells, Width(), Height(), Depth(), c);
        CellIndex(c, Width(), Depth())
      else
        CellIndex(c, Width(), Depth())
    }

    /** getCellPosition: the coordinates of the cell with that id. */
    function CellPositionOf(index: nat): (c: Coord)
      reads this
      requires Valid()
      ensures index < |cells| ==> c == cells[index].position
      ensures index < |cells| ==> InGrid(c, Width(), Height(), Depth())
    {
      if index < |cells| then
        CellPositionOfId(cells[index].position, Width(), Height(), Depth());
        CellPosition(index, Width(), Depth())
      else
        CellPosition(index, Width(), Depth())
    }

    /** getCellId: -1 for coordinates outside the grid, otherwise the id of the
        cell at those coordinates. */
    function CellIdAt(x: int, y: int, z: int): (id: int)
      reads this
      requires Valid()
      ensures id == -1 <==> !InGrid(Coord(x, y, z), Width(), Height(), Depth())
      ensures id != -1 ==> 0 <= id < |cells| && cells[id].position == Coord(x, y, z)
    {
      var c := Coord(x, y, z);
      if InGrid(c, Width(), Height(), Depth()) then
        CellAtLinearId(cells, Width(), Height(), Depth(), c);
        CellId(c, Width(), Height(), Depth())
      else
        CellId(c, Width(), Height(), Depth())
    }

    /** getPointIndex: the position of the first point of the cell equal to
        position, -1 when there is none, or nothing (std::out_of_range) past
        the end of the grid. */
    method GetPointIndex(cellIndex: nat, position: Vec3) returns (r: Option<int>)
      ensures r.None? <==> cellIndex >= |cells|
      ensures r.Some? ==> -1 <= r.value < |cells[cellIndex].points|
      ensures r.Some? && r.value != -1 ==> cells[cellIndex].points[r.value].Equals(position)
      ensures r.Some? ==> forall j :: 0 <= j < |cells[cellIndex].points| && (r.value == -1 || j < r.value) ==>
        !cells[cellIndex].points[j].Equals(position)
    {
      if cellIndex >= |cells| {
        return None;
      }
      var points := cells[cellIndex].points;
      var i := 0;
      while i < |points|
        invariant 0 <= i <= |points|
        invariant forall j :: 0 <= j < i ==> !points[j].Equals(position)
      {
        if points[i].Equals(position) {
          return Some(i);
        }
        i := i + 1;
      }
      return Some(-1);
    }

    /** The innermost loop of getNeighborCells: visits the three cells at x
        offsets -1, 0, 1 on the row at offsets dy, dz from c, listing the
        non-empty ones that exist. */
    method ScanRow(c: Coord, dy: int, dz: int, out: seq<nat>) returns (next: seq<nat>)
      requires Valid() && -1 <= dy <= 1 && -1 <= dz <= 1
      requires Collected(cells, c, out, 9 * (dy + 1) + 3 * (dz + 1))
      ensures Collected(cells, c, next, 9 * (dy + 1) + 3 * (dz + 1) + 3)
    {
      var w, h, d := Width(), Height(), Depth();
      next := out;
      var dx := -1;
      while dx <= 1
        invariant -1 <= dx <= 2
        invariant Collected(cells, c, next, 9 * (dy + 1) + 3 * (dz + 1) + (dx + 1))
      {
        var p := Coord(c.x + dx, c.y + dy, c.z + dz);
        ghost var k := 9 * (dy + 1) + 3 * (dz + 1) + (dx + 1);
        ghost var before := next;
        var id := CellIdAt(p.x, p.y, p.z);
        if id != -1 {
          if !cells[id].IsEmpty() {
            next := next + [id];
          }
        }
        assert Collected(cells, c, next, k + 1) by {
          assert ScanOffset(p, c) == k;
          assert id == CellId(p, w, h, d);
          CollectStep(cells, w, h, d, c, before, p, id);
        }
        dx := dx + 1;
      }
    }

    /** getNeighborCells: the ids, in increasing order, of exactly the
        non-empty cells within one step of the given cell on every axis (the
        cell itself included), or nothing (std::out_of_range) past the end of
        the grid. */
    method GetNeighborCells(cellIndex: nat) returns (r: Option<seq<nat>>)
      requires Valid()
      ensures r.None? <==> cellIndex >= |cells|
      ensures r.Some? ==> |r.value| <= 27
      ensures r.Some? ==> forall a, b :: 0 <= a < b < |r.value| ==> r.value[a] < r.value[b]
      ensures r.Some? ==> forall j: nat :: j in r.value <==>
        j < |cells| && Neighbour(cells[j], cells[cellIndex].position)
      ensures r.Some? ==> (cellIndex in r.value <==> !cells[cellIndex].IsEmpty())
    {
      if cellIndex >= |cells| {
        return None;
      }
      var c := cells[cellIndex].position;
      var out: seq<nat> := [];
      var dy := -1;
      while dy <= 1
        invariant -1 <= dy <= 2
        invariant Collected(cells, c, out, 9 * (dy + 1))
      {
        var dz := -1;
        while dz <= 1
          invariant -1 <= dz <= 2
          invariant Collected(cells, c, out, 9 * (dy + 1) + 3 * (dz + 1))
        {
          out := ScanRow(c, dy, dz, out);
          dz := dz + 1;
        }
        dy := dy + 1;
      }
      CollectDone(cells, c, out);
      r := Some(out);
    }
  }
}
