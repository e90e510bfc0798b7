/** One face of the cube-sphere: its direction, its basis, and the mesh
    construction that fills the face's geometry buffers. */
module Faces {
  import opened Vectors
  import opened Settings
  import opened Tessellation

  /** The six face directions in the order the planet builds its faces:
      up, down, right, left, forward, back. */
  function Directions(): (d: seq<Vec3>)
    ensures |d| == 6
  {
    [Vec3(0.0, 1.0, 0.0), Vec3(0.0, -1.0, 0.0),
     Vec3(1.0, 0.0, 0.0), Vec3(-1.0, 0.0, 0.0),
     Vec3(0.0, 0.0, 1.0), Vec3(0.0, 0.0, -1.0)]
  }

  /** The face directions come in opposite pairs: entry 2i + 1 is entry 2i
      reversed, and entry 2i is one of the positive unit vectors of the y, x
      and z axes. */
  lemma DirectionPairs(i: int)
    requires 0 <= i < 3
    ensures Directions()[2 * i + 1] == Scale(Directions()[2 * i], -1.0)
    ensures Directions()[2 * i] in [Vec3(0.0, 1.0, 0.0), Vec3(1.0, 0.0, 0.0), Vec3(0.0, 0.0, 1.0)]
  {
  }

  /** The face's second axis: the normalised cross product of the direction
      with its components rotated. */
  function AxisB(localUp: Vec3, normalize: Vec3 -> Vec3): Vec3 {
    normalize(RotatedCross(localUp))
  }

  /** The direction crossed with its components rotated (y, z, x). */
  function RotatedCross(localUp: Vec3): Vec3 {
    Cross(localUp, Vec3(localUp.y, localUp.z, localUp.x))
  }

  /** The face's first axis, re-derived from the second so that both are
      orthogonal to the direction. */
  function AxisA(localUp: Vec3, normalize: Vec3 -> Vec3): Vec3 {
    normalize(Cross(AxisB(localUp, normalize), localUp))
  }

  /** The point on the unit cube's face at fractions (percentX, percentY)
      across it, before it is pushed out onto the unit sphere. */
  function CubePoint(localUp: Vec3, axisA: Vec3, axisB: Vec3, percentX: real, percentY: real): Vec3 {
    Add(Add(localUp, Scale(axisA, (percentX - 0.5) * 2.0)), Scale(axisB, (percentY - 0.5) * 2.0))
  }

  /** The geometry buffer a face fills and a mesh displays: its position, UV
      and index attributes. */
  class Geometry {
    var position: seq<real>
    var uv: seq<real>
    var index: seq<int>

    constructor ()
      ensures position == [] && uv == [] && index == []
    {
      position, uv, index := [], [], [];
    }

    function Buffers(): MeshBuffers
      reads this
    {
      MeshBuffers(position, uv, index)
    }
  }

  class TerrainFace {
    const geometry: Geometry
    const resolution: int
    const localUp: Vec3
    const axisA: Vec3
    const axisB: Vec3
    const shapeGenerator: ShapeGenerator
    /** The 3D library's vector normalisation. */
    const normalize: Vec3 -> Vec3

    constructor (shapeGenerator: ShapeGenerator, geometry: Geometry, resolution: int, localUp: Vec3,
                 normalize: Vec3 -> Vec3)
      ensures this.shapeGenerator == shapeGenerator && this.geometry == geometry
      ensures this.resolution == resolution && this.localUp == localUp && this.normalize == normalize
      ensures axisA == AxisA(localUp, normalize) && axisB == AxisB(localUp, normalize)
    {
      this.geometry := geometry;
      this.resolution := resolution;
      this.localUp := localUp;
      this.normalize := normalize;
      var rotated := Vec3(localUp.y, localUp.z, localUp.x);
      var b := normalize(Cross(localUp, rotated));
      this.axisB := b;
      this.axisA := normalize(Cross(b, localUp));
      this.shapeGenerator := shapeGenerator;
    }

    /** The vertex emitted for the fractions (percentX, percentY) across the
        face at radius `radius`: the cube point pushed onto the unit sphere,
        scaled by the radius and then by the noise value at that sphere
        point. */
    function SurfacePoint(radius: real, percentX: real, percentY: real): (v: Vec3)
      ensures var unit := normalize(CubePoint(localUp, axisA, axisB, percentX, percentY));
              v == Scale(unit, radius * shapeGenerator.noise(unit))
    {
      var pointOnUnitSphere := normalize(CubePoint(localUp, axisA, axisB, percentX, percentY));
      var elevation := shapeGenerator.noise(pointOnUnitSphere);
      PlanetVertex(radius, elevation, pointOnUnitSphere)
    }

    /** The face's surface at radius `radius`, as a function of the fractions
        across the face. */
    function Surface(radius: real): (real, real) -> Vec3 {
      (percentX, percentY) => SurfacePoint(radius, percentX, percentY)
    }

    /** The geometry holds this face's complete mesh at radius `radius`. */
    ghost predicate Holds(radius: real)
      requires resolution >= 2
      reads geometry
    {
      IsFaceMesh(resolution, Surface(radius), geometry.Buffers())
    }

    /** The index attribute of a face that holds its mesh lists the cells'
        triangles. */
    lemma HeldIndices(radius: real)
      requires resolution >= 2 && Holds(radius)
      ensures IndicesOk(resolution, geometry.index, CellCount(resolution))
    {
      assert geometry.Buffers().indices == geometry.index;
    }

    /** Once the face holds its mesh, and its basis is right-handed, every
        cell of its index attribute faces outward along localUp. */
    lemma WindsOutward(radius: real, j: int)
      requires resolution >= 2 && Holds(radius) && Cross(axisA, axisB) == localUp
      requires 0 <= j < CellCount(resolution)
      ensures 6 * j + 6 <= |geometry.index|
      ensures CellFacesOutward(localUp, axisA, axisB, resolution, geometry.index, j)
    {
      HeldIndices(radius);
      FaceWindsOutward(localUp, axisA, axisB, resolution, geometry.index, j);
    }

    /** Builds the face's buffers and stores them as the geometry's position,
        UV and index attributes. Every vertex asks the shape generator for the
        radius the shared settings hold; nothing changes them while the mesh
        is built, so the radius is read once, before the loop. */
    method ConstructMesh()
      requires resolution >= 2
      modifies geometry
      ensures Holds(Radius(shapeGenerator.settings))
      ensures |geometry.position| == 3 * (resolution * resolution)
      ensures |geometry.uv| == 2 * (resolution * resolution)
      ensures |geometry.index| == 6 * CellCount(resolution)
      ensures forall i :: 0 <= i < |geometry.index| ==> 0 <= geometry.index[i] < resolution * resolution
    {
      var radius := Radius(shapeGenerator.settings);
      var b := Tessellate(resolution, Surface(radius));
      geometry.position := b.positions;
      geometry.uv := b.uvs;
      geometry.index := b.indices;
    }
  }

  /** The 3D library's normalisation leaves the six axis directions (which
      already have unit length) unchanged. This is all the model asks of it. */
  ghost predicate FixesAxisVectors(normalize: Vec3 -> Vec3) {
    forall v :: v in Directions() ==> normalize(v) == v
  }

  /** The face basis (axisA, axisB) of direction `i`, in exact values. */
  function BasisTable(i: int): (Vec3, Vec3)
    requires 0 <= i < 6
  {
    if i == 0 then (Vec3(1.0, 0.0, 0.0), Vec3(0.0, 0.0, -1.0))
    else if i == 1 then (Vec3(-1.0, 0.0, 0.0), Vec3(0.0, 0.0, -1.0))
    else if i == 2 then (Vec3(0.0, 0.0, 1.0), Vec3(0.0, -1.0, 0.0))
    else if i == 3 then (Vec3(0.0, 0.0, -1.0), Vec3(0.0, -1.0, 0.0))
    else if i == 4 then (Vec3(0.0, 1.0, 0.0), Vec3(-1.0, 0.0, 0.0))
    else (Vec3(0.0, -1.0, 0.0), Vec3(-1.0, 0.0, 0.0))
  }

  /** Before normalisation, axisB of direction `i` is the table's second axis. */
  lemma RotatedCrossOfDirection(i: int)
    requires 0 <= i < 6
    ensures RotatedCross(Directions()[i]) == BasisTable(i).1
  {
  }

  /** Before normalisation, axisA of direction `i` is the table's first axis. */
  lemma ReorthogonalisedAxis(i: int)
    requires 0 <= i < 6
    ensures Cross(BasisTable(i).1, Directions()[i]) == BasisTable(i).0
  {
  }

  /** Both axes of every face are themselves axis directions. */
  lemma BasisAxesAreDirections(i: int)
    requires 0 <= i < 6
    ensures BasisTable(i).0 in Directions() && BasisTable(i).1 in Directions()
  {
  }

  /** The first axis of each row is a unit vector. */
  lemma FirstAxisUnit(i: int)
    requires 0 <= i < 6
    ensures Dot(BasisTable(i).0, BasisTable(i).0) == 1.0
  {
  }

  /** The second axis of each row is a unit vector. */
  lemma SecondAxisUnit(i: int)
    requires 0 <= i < 6
    ensures Dot(BasisTable(i).1, BasisTable(i).1) == 1.0
  {
  }

  /** Each direction is a unit vector. */
  lemma DirectionUnit(i: int)
    requires 0 <= i < 6
    ensures Dot(Directions()[i], Directions()[i]) == 1.0
  {
  }

  /** The two axes of each row of the table are orthogonal. */
  lemma AxesOrthogonal(i: int)
    requires 0 <= i < 6
    ensures Dot(BasisTable(i).0, BasisTable(i).1) == 0.0
  {
  }

  /** The first axis of each row is orthogonal to the direction. */
  lemma FirstAxisOrthogonal(i: int)
    requires 0 <= i < 6
    ensures Dot(BasisTable(i).0, Directions()[i]) == 0.0
  {
  }

  /** The second axis of each row is orthogonal to the direction. */
  lemma SecondAxisOrthogonal(i: int)
    requires 0 <= i < 6
    ensures Dot(BasisTable(i).1, Directions()[i]) == 0.0
  {
  }

  /** Each row of the table is right-handed: axisA x axisB is the direction. */
  lemma TableRightHanded(i: int)
    requires 0 <= i < 6
    ensures Cross(BasisTable(i).0, BasisTable(i).1) == Directions()[i]
  {
  }

  /** For each of the six directions the face basis the constructor derives is
      orthonormal and right-handed: axisA x axisB is the direction itself. The
      cross products involved are exact, as every component is 0, 1 or -1, so
      the normalisations change nothing. */
  lemma BasisOrthonormal(i: int, normalize: Vec3 -> Vec3)
    requires 0 <= i < 6 && FixesAxisVectors(normalize)
    ensures AxisA(Directions()[i], normalize) == BasisTable(i).0
    ensures AxisB(Directions()[i], normalize) == BasisTable(i).1
    ensures var u, a, b := Directions()[i], AxisA(Directions()[i], normalize), AxisB(Directions()[i], normalize);
      && Dot(a, a) == 1.0 && Dot(b, b) == 1.0 && Dot(u, u) == 1.0
      && Dot(a, b) == 0.0 && Dot(a, u) == 0.0 && Dot(b, u) == 0.0
      && Cross(a, b) == u
  {
    RotatedCrossOfDirection(i);
    ReorthogonalisedAxis(i);
    BasisAxesAreDirections(i);
    FirstAxisUnit(i);
    SecondAxisUnit(i);
    DirectionUnit(i);
    AxesOrthogonal(i);
    FirstAxisOrthogonal(i);
    SecondAxisOrthogonal(i);
    TableRightHanded(i);
  }

  /** The normal (b - a) x (c - a) of triangle (a, b, c). */
  function Normal(a: Vec3, b: Vec3, c: Vec3): Vec3 {
    Cross(Sub(b, a), Sub(c, a))
  }

  /** The cube-face point of the vertex at slot `k` of a face with direction
      `localUp` and axes `axisA`, `axisB`. */
  function FaceVertex(localUp: Vec3, axisA: Vec3, axisB: Vec3, res: int, k: int): Vec3
    requires res >= 2
  {
    GridVertex(localUp, axisA, axisB, res, k % res, k / res)
  }

  /** The cube-face point at column `gx`, row `gy` of a face's grid. */
  function GridVertex(localUp: Vec3, axisA: Vec3, axisB: Vec3, res: int, gx: int, gy: int): Vec3
    requires res >= 2
  {
    CubePoint(localUp, axisA, axisB, Percent(gx, res), Percent(gy, res))
  }

  /** Moving (dx, dy) across a face moves the cube point by 2 dx along
      axisA and 2 dy along axisB (the face spans [-1, 1] along both). */
  lemma CubeOffset(u: Vec3, a: Vec3, b: Vec3, px: real, py: real, qx: real, qy: real, s: real, t: real)
    requires s == 2.0 * (qx - px) && t == 2.0 * (qy - py)
    ensures Sub(CubePoint(u, a, b, qx, qy), CubePoint(u, a, b, px, py)) == Add(Scale(a, s), Scale(b, t))
  {
    assert a.x * ((qx - 0.5) * 2.0) - a.x * ((px - 0.5) * 2.0) == a.x * s;
    assert a.y * ((qx - 0.5) * 2.0) - a.y * ((px - 0.5) * 2.0) == a.y * s;
    assert a.z * ((qx - 0.5) * 2.0) - a.z * ((px - 0.5) * 2.0) == a.z * s;
    assert b.x * ((qy - 0.5) * 2.0) - b.x * ((py - 0.5) * 2.0) == b.x * t;
    assert b.y * ((qy - 0.5) * 2.0) - b.y * ((py - 0.5) * 2.0) == b.y * t;
    assert b.z * ((qy - 0.5) * 2.0) - b.z * ((py - 0.5) * 2.0) == b.z * t;
  }

  /** The normal of a triangle of cube points on a face is axisA x axisB,
      scaled by twice the signed area the triangle spans in the face's
      (percentX, percentY) coordinates, times 4. */
  lemma TriangleNormal(u: Vec3, a: Vec3, b: Vec3, x0: real, y0: real, x1: real, y1: real, x2: real, y2: real,
                       s1: real, t1: real, s2: real, t2: real, k: real)
    requires s1 == 2.0 * (x1 - x0) && t1 == 2.0 * (y1 - y0)
    requires s2 == 2.0 * (x2 - x0) && t2 == 2.0 * (y2 - y0)
    requires k == s1 * t2 - t1 * s2
    ensures Normal(CubePoint(u, a, b, x0, y0), CubePoint(u, a, b, x1, y1), CubePoint(u, a, b, x2, y2))
            == Scale(Cross(a, b), k)
  {
    CubeOffset(u, a, b, x0, y0, x1, y1, s1, t1);
    CubeOffset(u, a, b, x0, y0, x2, y2, s2, t2);
    CrossOfCombinations(a, b, s1, t1, s2, t2, k);
  }

  /** The fraction of the face one grid step spans. */
  function Step(res: int): real
    requires res >= 2
  {
    1.0 / (res - 1) as real
  }

  /** One grid step is 1 / (res - 1) of the way across the face. */
  lemma PercentStep(x: int, res: int)
    requires res >= 2
    ensures Percent(x + 1, res) == Percent(x, res) + Step(res)
  {
    var r := (res - 1) as real;
    assert (x + 1) as real / r == x as real / r + 1.0 / r;
  }

  /** On a face whose basis is right-handed (axisA x axisB == localUp), the
      two triangles of cube points at the corners of the cell spanning
      [x0, x1] x [y0, y1], a square of side d, taken in the order the index
      buffer lists them, both have normal 4 d^2 localUp: they face outward. */
  lemma CornerWinding(u: Vec3, a: Vec3, b: Vec3, x0: real, y0: real, x1: real, y1: real, d: real)
    requires Cross(a, b) == u && x1 == x0 + d && y1 == y0 + d
    ensures Normal(CubePoint(u, a, b, x0, y0), CubePoint(u, a, b, x1, y1), CubePoint(u, a, b, x0, y1))
            == Scale(u, 4.0 * d * d)
    ensures Normal(CubePoint(u, a, b, x0, y0), CubePoint(u, a, b, x1, y0), CubePoint(u, a, b, x1, y1))
            == Scale(u, 4.0 * d * d)
  {
    TriangleNormal(u, a, b, x0, y0, x1, y1, x0, y1, 2.0 * d, 2.0 * d, 0.0, 2.0 * d, 4.0 * d * d);
    TriangleNormal(u, a, b, x0, y0, x1, y0, x1, y1, 2.0 * d, 0.0, 2.0 * d, 2.0 * d, 4.0 * d * d);
  }

  /** On a face with a right-handed basis, the first triangle of cube points
      at the corners of grid cell (x, y), in the order the index buffer lists
      them, has normal 4 / (res - 1)^2 times localUp. */
  lemma FirstGridTriangle(u: Vec3, a: Vec3, b: Vec3, res: int, x: int, y: int)
    requires Cross(a, b) == u && res >= 2
    ensures Normal(GridVertex(u, a, b, res, x, y), GridVertex(u, a, b, res, x + 1, y + 1), GridVertex(u, a, b, res, x, y + 1))
      == Scale(u, 4.0 * Step(res) * Step(res))
  {
    PercentStep(x, res);
    PercentStep(y, res);
    var x0, y0, x1, y1 := Percent(x, res), Percent(y, res), Percent(x + 1, res), Percent(y + 1, res);
    var d := Step(res);
    CornerWinding(u, a, b, x0, y0, x1, y1, d);
    assert 4.0 * d * d == 4.0 * Step(res) * Step(res);
    assert GridVertex(u, a, b, res, x, y) == CubePoint(u, a, b, x0, y0);
    assert GridVertex(u, a, b, res, x + 1, y + 1) == CubePoint(u, a, b, x1, y1);
    assert GridVertex(u, a, b, res, x, y + 1) == CubePoint(u, a, b, x0, y1);
  }

  /** On a face with a right-handed basis, the second triangle of cube points
      at the corners of grid cell (x, y), in the order the index buffer lists
      them, has normal 4 / (res - 1)^2 times localUp. */
  lemma SecondGridTriangle(u: Vec3, a: Vec3, b: Vec3, res: int, x: int, y: int)
    requires Cross(a, b) == u && res >= 2
    ensures Normal(GridVertex(u, a, b, res, x, y), GridVertex(u, a, b, res, x + 1, y), GridVertex(u, a, b, res, x + 1, y + 1))
      == Scale(u, 4.0 * Step(res) * Step(res))
  {
    PercentStep(x, res);
    PercentStep(y, res);
    var x0, y0, x1, y1 := Percent(x, res), Percent(y, res), Percent(x + 1, res), Percent(y + 1, res);
    var d := Step(res);
    CornerWinding(u, a, b, x0, y0, x1, y1, d);
    assert 4.0 * d * d == 4.0 * Step(res) * Step(res);
    assert GridVertex(u, a, b, res, x, y) == CubePoint(u, a, b, x0, y0);
    assert GridVertex(u, a, b, res, x + 1, y) == CubePoint(u, a, b, x1, y0);
    assert GridVertex(u, a, b, res, x + 1, y + 1) == CubePoint(u, a, b, x1, y1);
  }

  /** Consistent winding, first triangle of cell (x, y): on a face with a
      right-handed basis, the cube points at the first three indices the
      index pattern emits for the cell form a triangle whose normal is
      4 / (res - 1)^2 times localUp. */
  lemma FirstTriangleWinding(u: Vec3, a: Vec3, b: Vec3, res: int, x: int, y: int)
    requires Cross(a, b) == u
    requires res >= 2 && 0 <= x < res - 1 && 0 <= y < res - 1
    ensures var t, d := CellIndices(res, x, y), Step(res);
      Normal(FaceVertex(u, a, b, res, t[0]), FaceVertex(u, a, b, res, t[1]), FaceVertex(u, a, b, res, t[2]))
      == Scale(u, 4.0 * d * d)
  {
    CellCorners(res, x, y);
    FirstGridTriangle(u, a, b, res, x, y);
  }

  /** The same for the last three indices the index pattern emits for
      cell (x, y). */
  lemma SecondTriangleWinding(u: Vec3, a: Vec3, b: Vec3, res: int, x: int, y: int)
    requires Cross(a, b) == u
    requires res >= 2 && 0 <= x < res - 1 && 0 <= y < res - 1
    ensures var t, d := CellIndices(res, x, y), Step(res);
      Normal(FaceVertex(u, a, b, res, t[3]), FaceVertex(u, a, b, res, t[4]), FaceVertex(u, a, b, res, t[5]))
      == Scale(u, 4.0 * d * d)
  {
    CellCorners(res, x, y);
    SecondGridTriangle(u, a, b, res, x, y);
  }

  /** Consistent winding read through a complete index buffer: on a face with
      a right-handed basis, the first triangle stored for cell `j` has
      normal 4 / (res - 1)^2 times localUp. */
  lemma FirstTriangleOfCell(u: Vec3, a: Vec3, b: Vec3, res: int, s: seq<int>, j: int)
    requires Cross(a, b) == u && res >= 2
    requires IndicesOk(res, s, CellCount(res)) && 0 <= j < CellCount(res)
    ensures 6 * j + 6 <= |s|
    ensures var d := Step(res);
      Normal(FaceVertex(u, a, b, res, s[6 * j]), FaceVertex(u, a, b, res, s[6 * j + 1]), FaceVertex(u, a, b, res, s[6 * j + 2]))
      == Scale(u, 4.0 * d * d)
  {
    CellOfBuffer(res, s, CellCount(res), j);
    RowBound(j, res - 1, res - 1);
    FirstTriangleWinding(u, a, b, res, j % (res - 1), j / (res - 1));
  }

  /** The same for the second triangle stored for cell `j`. */
  lemma SecondTriangleOfCell(u: Vec3, a: Vec3, b: Vec3, res: int, s: seq<int>, j: int)
    requires Cross(a, b) == u && res >= 2
    requires IndicesOk(res, s, CellCount(res)) && 0 <= j < CellCount(res)
    ensures 6 * j + 6 <= |s|
    ensures var d := Step(res);
      Normal(FaceVertex(u, a, b, res, s[6 * j + 3]), FaceVertex(u, a, b, res, s[6 * j + 4]), FaceVertex(u, a, b, res, s[6 * j + 5]))
      == Scale(u, 4.0 * d * d)
  {
    CellOfBuffer(res, s, CellCount(res), j);
    RowBound(j, res - 1, res - 1);
    SecondTriangleWinding(u, a, b, res, j % (res - 1), j / (res - 1));
  }

  /** Both triangles stored for cell `j` of index buffer `s` have normal
      4 / (res - 1)^2 times localUp: the cell faces outward along localUp. */
  ghost predicate CellFacesOutward(u: Vec3, a: Vec3, b: Vec3, res: int, s: seq<int>, j: int)
    requires res >= 2 && 0 <= j && 6 * j + 6 <= |s|
  {
    var d := Step(res);
    && Normal(FaceVertex(u, a, b, res, s[6 * j]), FaceVertex(u, a, b, res, s[6 * j + 1]), FaceVertex(u, a, b, res, s[6 * j + 2]))
       == Scale(u, 4.0 * d * d)
    && Normal(FaceVertex(u, a, b, res, s[6 * j + 3]), FaceVertex(u, a, b, res, s[6 * j + 4]), FaceVertex(u, a, b, res, s[6 * j + 5]))
       == Scale(u, 4.0 * d * d)
  }

  /** Consistent winding of a whole face: on a face with a right-handed basis,
      every cell of a complete index buffer faces outward. */
  lemma FaceWindsOutward(u: Vec3, a: Vec3, b: Vec3, res: int, s: seq<int>, j: int)
    requires Cross(a, b) == u && res >= 2
    requires IndicesOk(res, s, CellCount(res)) && 0 <= j < CellCount(res)
    ensures 6 * j + 6 <= |s| && CellFacesOutward(u, a, b, res, s, j)
  {
    FirstTriangleOfCell(u, a, b, res, s, j);
    SecondTriangleOfCell(u, a, b, res, s, j);
  }
}
