/** The value types of include/spatialGrid.h. */
module GridTypes {
  import opened Vectors
  import opened GridIndexing

  /** A width/height/depth triple: the world extent a grid covers (its domain)
      or the number of cells per axis (its resolution). */
  datatype Volume = Volume(width: real, height: real, depth: real) {

    /** getDimension: width * height * depth, the volume of the box; zero
        exactly when some side is, and positive when every side is. */
    function Dimension(): (r: real)
      ensures r == 0.0 <==> width == 0.0 || height == 0.0 || depth == 0.0
      ensures width > 0.0 && height > 0.0 && depth > 0.0 ==> r > 0.0
    {
      width * height * depth
    }

    /** setWidth changes the width and nothing else. */
    function SetWidth(w: real): (r: Volume)
      ensures r.width == w && r.height == height && r.depth == depth
    {
      this.(width := w)
    }

    /** setHeight changes the height and nothing else. */
    function SetHeight(h: real): (r: Volume)
      ensures r.height == h && r.width == width && r.depth == depth
    {
      this.(height := h)
    }

    /** setDepth changes the depth and nothing else. */
    function SetDepth(d: real): (r: Volume)
      ensures r.depth == d && r.width == width && r.height == height
    {
      this.(depth := d)
    }
  }

  function Abs(r: real): real
  {
    if r < 0.0 then -r else r
  }

  /** An interval on one axis with a derived length. */
  datatype Dimension = Dimension(length: real, min: real, max: real)

  /** Dimension(min, max): keeps both bounds and sets length = |min| + |max|,
      which is never negative and never shorter than the span max - min. */
  function MakeDimension(min: real, max: real): (r: Dimension)
    ensures r.min == min && r.max == max
    ensures r.length == Abs(min) + Abs(max)
    ensures r.length >= 0.0 && r.length >= r.max - r.min
  {
    Dimension(Abs(min) + Abs(max), min, max)
  }

  /** A point of a point cloud, with the caller's id (its vertex index). */
  datatype Point = Point(id: int, position: Vec3) {

    /** equals: true iff all three coordinates compare equal. */
    function Equals(q: Vec3): (r: bool)
      ensures r <==> position == q
    {
      position.x == q.x && position.y == q.y && position.z == q.z
    }
  }

  /** A triangle of the reference mesh, with the caller's id. */
  datatype GridPolygon = GridPolygon(id: int, vertices: Triangle)

  /** A cell: its coordinates, its id, and the points and triangles filed in it. */
  datatype GridCell = GridCell(position: Coord, id: int, points: seq<Point>, polygons: seq<GridPolygon>) {

    /** isEmpty looks at the points only: a cell is empty when it holds no
        point. */
    predicate IsEmpty(): (r: bool)
      ensures r <==> forall pt :: pt !in points
    {
      if points == [] then true
      else
        assert points[0] in points;
        false
    }
  }

  /** GridCell(x, y, z, id): a cell with no points and no triangles. */
  function NewCell(position: Coord, id: int): (c: GridCell)
    ensures c.position == position && c.id == id
    ensures c.IsEmpty() && c.polygons == []
  {
    GridCell(position, id, [], [])
  }

  /** A cell is empty iff it has no points, whatever triangles it holds. */
  lemma EmptinessIgnoresPolygons(c: GridCell, polygons: seq<GridPolygon>)
    ensures c.(polygons := polygons).IsEmpty() <==> |c.points| == 0
  {
  }

}
