/** The grid tessellation of one terrain face: a resolution x resolution grid
    walked row by row (y outer, x inner), one vertex and one UV pair per grid
    point, two triangles per grid cell that is not on the last row or column.
    The buffers are flat, as the rendering library takes them: three position
    components per vertex, two UV components per vertex, three indices per
    triangle. */
module Tessellation {
  import opened Vectors

  /** The three flat buffers one face emits. */
  datatype MeshBuffers = MeshBuffers(positions: seq<real>, uvs: seq<real>, indices: seq<int>)

  /** How far across the face grid coordinate `i` lies, from 0 at the first
      row or column to 1 at the last. */
  function Percent(i: int, res: int): real
    requires res >= 2
  {
    i as real / (res - 1) as real
  }

  /** The vertex stored at slot `k` of a flat position buffer. */
  function Triple(s: seq<real>, k: nat): Vec3
    requires 3 * k + 3 <= |s|
  {
    Vec3(s[3 * k], s[3 * k + 1], s[3 * k + 2])
  }

  /** The UV pair stored at slot `k` of a flat UV buffer. */
  function Pair(s: seq<real>, k: nat): (real, real)
    requires 2 * k + 2 <= |s|
  {
    (s[2 * k], s[2 * k + 1])
  }

  /** The six indices stored for cell number `j` of a flat index buffer. */
  function Sextet(s: seq<int>, j: nat): seq<int>
    requires 6 * j + 6 <= |s|
  {
    s[6 * j .. 6 * j + 6]
  }

  /** The two triangles of the cell whose top-left corner is grid point (x, y). */
  function CellIndices(res: int, x: int, y: int): seq<int> {
    var c := x + y * res;
    [c, c + res + 1, c + res, c, c + 1, c + res + 1]
  }

  /** The number of cells of a res x res grid: those with a right and a
      lower neighbour. */
  function CellCount(res: int): int {
    (res - 1) * (res - 1)
  }

  function Min(a: int, b: int): int {
    if a < b then a else b
  }

  /** `s` holds the vertices of the first `n` grid points in row-major order:
      slot `k` holds the surface point of grid point (k mod res, k div res). */
  ghost predicate PositionsOk(res: int, surface: (real, real) -> Vec3, s: seq<real>, n: nat)
    requires res >= 2
  {
    && |s| == 3 * n
    && forall k: nat :: k < n ==>
         Triple(s, k) == surface(Percent(k % res, res), Percent(k / res, res))
  }

  /** `s` holds the UV pairs of the first `n` grid points in row-major order. */
  ghost predicate UVsOk(res: int, s: seq<real>, n: nat)
    requires res >= 2
  {
    && |s| == 2 * n
    && forall k: nat :: k < n ==> Pair(s, k) == (Percent(k % res, res), Percent(k / res, res))
  }

  /** `s` holds the triangles of the first `m` cells, cells numbered row-major
      over the (res - 1) x (res - 1) cells that have a right and a lower
      neighbour. */
  ghost predicate IndicesOk(res: int, s: seq<int>, m: nat)
    requires res >= 2
  {
    && |s| == 6 * m
    && forall j: nat :: j < m ==> Sextet(s, j) == CellIndices(res, j % (res - 1), j / (res - 1))
  }

  /** The complete buffers of a face whose vertex for the fractions (u, v)
      across the face is `surface(u, v)`. */
  ghost predicate IsFaceMesh(res: int, surface: (real, real) -> Vec3, b: MeshBuffers)
    requires res >= 2
  {
    && PositionsOk(res, surface, b.positions, res * res)
    && UVsOk(res, b.uvs, res * res)
    && IndicesOk(res, b.indices, CellCount(res))
  }

  /** A positive multiple of a positive number is at least that number. */
  lemma {:induction false} MulAtLeast(k: int, d: int)
    requires k >= 1 && d > 0
    ensures k * d >= d
  {
    if k > 1 {
      MulAtLeast(k - 1, d);
      assert k * d == (k - 1) * d + d;
    }
  }

  /** The only multiple of `d` strictly between `-d` and `d` is zero. */
  lemma SmallMultiple(k: int, d: int)
    requires d > 0 && -d < k * d < d
    ensures k == 0
  {
    if k >= 1 {
      MulAtLeast(k, d);
    } else if k <= -1 {
      MulAtLeast(-k, d);
    }
  }

  /** Euclidean division recovers row and column of a row-major slot. */
  lemma DivMod(q: nat, r: nat, d: nat)
    requires r < d
    ensures (q * d + r) / d == q && (q * d + r) % d == r
  {
    var n := q * d + r;
    var q' := n / d;
    assert (q' - q) * d == q' * d - q * d;
    SmallMultiple(q' - q, d);
  }

  lemma PositionsStep(res: int, surface: (real, real) -> Vec3, s: seq<real>, n: nat, p: Vec3)
    requires res >= 2
    requires PositionsOk(res, surface, s, n)
    requires p == surface(Percent(n % res, res), Percent(n / res, res))
    ensures PositionsOk(res, surface, s + [p.x, p.y, p.z], n + 1)
  {
    var s' := s + [p.x, p.y, p.z];
    forall k: nat | k < n + 1
      ensures Triple(s', k) == surface(Percent(k % res, res), Percent(k / res, res))
    {
      if k < n {
        assert Triple(s', k) == Triple(s, k);
      }
    }
  }

  lemma UVsStep(res: int, s: seq<real>, n: nat)
    requires res >= 2
    requires UVsOk(res, s, n)
    ensures UVsOk(res, s + [Percent(n % res, res), Percent(n / res, res)], n + 1)
  {
    var s' := s + [Percent(n % res, res), Percent(n / res, res)];
    forall k: nat | k < n + 1
      ensures Pair(s', k) == (Percent(k % res, res), Percent(k / res, res))
    {
      if k < n {
        assert Pair(s', k) == Pair(s, k);
      }
    }
  }

  lemma IndicesStep(res: int, s: seq<int>, m: nat, x: nat, y: nat)
    requires res >= 2
    requires IndicesOk(res, s, m)
    requires x < res - 1 && m == y * (res - 1) + x
    ensures IndicesOk(res, s + CellIndices(res, x, y), m + 1)
  {
    var s' := s + CellIndices(res, x, y);
    DivMod(y, x, res - 1);
    forall j: nat | j < m + 1
      ensures Sextet(s', j) == CellIndices(res, j % (res - 1), j / (res - 1))
    {
      if j < m {
        assert Sextet(s', j) == Sextet(s, j);
      } else {
        assert Sextet(s', j) == CellIndices(res, x, y);
      }
    }
  }

  /** Counting at the end of a row: the next row starts `res` slots and, unless
      the finished row was the last, `res - 1` cells further on. */
  lemma RowDone(y: int, res: int)
    requires 0 <= y < res
    ensures y * res + res == (y + 1) * res
    ensures Min(y, res - 1) * (res - 1) + (if y < res - 1 then Min(res, res - 1) else 0)
            == Min(y + 1, res - 1) * (res - 1)
  {
  }

  /** The nested loop of the face's mesh construction: y outer, x inner; every
      grid point pushes its vertex and its UV pair, and every grid point that
      is not on the last row or column pushes the two triangles of its cell,
      starting from the index `x + y * res` of its own vertex. */
  method Tessellate(res: int, surface: (real, real) -> Vec3) returns (b: MeshBuffers)
    requires res >= 2
    ensures IsFaceMesh(res, surface, b)
    ensures |b.positions| == 3 * (res * res) && |b.uvs| == 2 * (res * res)
    ensures |b.indices| == 6 * CellCount(res)
    ensures forall i :: 0 <= i < |b.indices| ==> 0 <= b.indices[i] < res * res
  {
    var vertices: seq<real> := [];
    var indices: seq<int> := [];
    var uvs: seq<real> := [];
    ghost var k: nat := 0;
    ghost var cells: nat := 0;
    var y := 0;
    while y < res
      invariant 0 <= y <= res
      invariant k == y * res
      invariant cells == Min(y, res - 1) * (res - 1)
      invariant PositionsOk(res, surface, vertices, k)
      invariant UVsOk(res, uvs, k)
      invariant IndicesOk(res, indices, cells)
    {
      var x := 0;
      while x < res
        invariant 0 <= x <= res
        invariant k == y * res + x
        invariant cells == Min(y, res - 1) * (res - 1) + (if y < res - 1 then Min(x, res - 1) else 0)
        invariant PositionsOk(res, surface, vertices, k)
        invariant UVsOk(res, uvs, k)
        invariant IndicesOk(res, indices, cells)
      {
        var percentX := x as real / (res - 1) as real;
        var percentY := y as real / (res - 1) as real;
        DivMod(y, x, res);
        var p := surface(percentX, percentY);
        PositionsStep(res, surface, vertices, k, p);
        vertices := vertices + [p.x, p.y, p.z];
        UVsStep(res, uvs, k);
        uvs := uvs + [percentX, percentY];
        if x < res - 1 && y < res - 1 {
          var currentIndex := x + y * res;
          IndicesStep(res, indices, cells, x, y);
          indices := indices + [
            currentIndex, currentIndex + res + 1, currentIndex + res,
            currentIndex, currentIndex + 1, currentIndex + res + 1];
          cells := cells + 1;
        }
        k := k + 1;
        x := x + 1;
      }
      RowDone(y, res);
      y := y + 1;
    }
    b := MeshBuffers(vertices, uvs, indices);
    IndexBufferInRange(res, indices);
  }

  /** The grid point (column, row) whose vertex sits at slot `k`. */
  function GridPoint(res: int, k: int): (int, int)
    requires res >= 1
  {
    (k % res, k / res)
  }

  /** The six indices of cell (x, y) address, in order, the grid points
      (x, y), (x+1, y+1), (x, y+1) for the first triangle and (x, y), (x+1, y),
      (x+1, y+1) for the second: the cell's own corners. */
  lemma CellCorners(res: int, x: int, y: int)
    requires res >= 2 && 0 <= x < res - 1 && 0 <= y < res - 1
    ensures var t := CellIndices(res, x, y);
      && GridPoint(res, t[0]) == (x, y)
      && GridPoint(res, t[1]) == (x + 1, y + 1)
      && GridPoint(res, t[2]) == (x, y + 1)
      && GridPoint(res, t[3]) == (x, y)
      && GridPoint(res, t[4]) == (x + 1, y)
      && GridPoint(res, t[5]) == (x + 1, y + 1)
  {
    var c := x + y * res;
    assert c + res == (y + 1) * res + x;
    assert c + res + 1 == (y + 1) * res + (x + 1);
    DivMod(y, x, res);
    DivMod(y, x + 1, res);
    DivMod(y + 1, x, res);
    DivMod(y + 1, x + 1, res);
  }

  /** Multiplication by a non-negative number is monotonic. */
  lemma MulMono(a: int, b: int, d: int)
    requires a <= b && d >= 0
    ensures a * d <= b * d
  {
    if a < b && d > 0 {
      MulAtLeast(b - a, d);
      assert b * d - a * d == (b - a) * d;
    }
  }

  /** The row of slot `j` in a grid `d` wide and `m` high is below `m`. */
  lemma RowBound(j: nat, d: int, m: int)
    requires d > 0 && j < m * d
    ensures j / d < m
  {
    if j / d >= m {
      MulMono(m, j / d, d);
    }
  }

  /** Every index of a cell refers to an existing vertex, and the three indices
      of each triangle are distinct. */
  lemma CellIndicesInRange(res: int, x: int, y: int)
    requires res >= 2 && 0 <= x < res - 1 && 0 <= y < res - 1
    ensures forall i :: 0 <= i < 6 ==> 0 <= CellIndices(res, x, y)[i] < res * res
    ensures var t := CellIndices(res, x, y);
      t[0] != t[1] && t[1] != t[2] && t[0] != t[2] && t[3] != t[4] && t[4] != t[5] && t[3] != t[5]
  {
    MulMono(y + 1, res - 1, res);
    assert x + y * res + res + 1 == (y + 1) * res + x + 1;
    assert (res - 1) * res + res == res * res;
    MulMono(0, y, res);
  }

  /** Entry `i` of an index buffer is entry `i mod 6` of cell `i div 6`. */
  lemma SextetEntry(s: seq<int>, i: nat)
    requires i < |s| && |s| % 6 == 0
    ensures 6 * (i / 6) + 6 <= |s| && s[i] == Sextet(s, i / 6)[i % 6]
  {
  }

  /** Entry `i` of an index buffer holding `m` cells is entry `i mod 6` of
      the triangles of cell `i div 6`. */
  lemma IndexEntryCell(res: int, s: seq<int>, m: nat, i: int)
    requires res >= 2 && IndicesOk(res, s, m) && 0 <= i < |s|
    ensures i / 6 < m
    ensures s[i] == CellIndices(res, (i / 6) % (res - 1), (i / 6) / (res - 1))[i % 6]
  {
    SextetEntry(s, i);
    RowBound(i, 6, m);
    assert Sextet(s, i / 6) == CellIndices(res, (i / 6) % (res - 1), (i / 6) / (res - 1));
  }

  /** The six entries stored for cell `j` of an index buffer holding `m`
      cells are the triangles of that cell. */
  lemma CellOfBuffer(res: int, s: seq<int>, m: nat, j: int)
    requires res >= 2 && IndicesOk(res, s, m) && 0 <= j < m
    ensures 6 * j + 6 <= |s|
    ensures var t := CellIndices(res, j % (res - 1), j / (res - 1));
      s[6 * j] == t[0] && s[6 * j + 1] == t[1] && s[6 * j + 2] == t[2]
      && s[6 * j + 3] == t[3] && s[6 * j + 4] == t[4] && s[6 * j + 5] == t[5]
  {
    assert Sextet(s, j) == CellIndices(res, j % (res - 1), j / (res - 1));
  }

  /** Entry `i` of a complete index buffer refers to an existing vertex. */
  lemma IndexEntryInRange(res: int, s: seq<int>, i: int)
    requires res >= 2 && IndicesOk(res, s, CellCount(res)) && 0 <= i < |s|
    ensures 0 <= s[i] < res * res
  {
    IndexEntryCell(res, s, CellCount(res), i);
    var j := i / 6;
    RowBound(j, res - 1, res - 1);
    CellIndicesInRange(res, j % (res - 1), j / (res - 1));
  }

  /** A complete index buffer refers only to existing vertices. */
  lemma IndexBufferInRange(res: int, s: seq<int>)
    requires res >= 2 && IndicesOk(res, s, CellCount(res))
    ensures forall i :: 0 <= i < |s| ==> 0 <= s[i] < res * res
  {
    forall i | 0 <= i < |s|
      ensures 0 <= s[i] < res * res
    {
      IndexEntryInRange(res, s, i);
    }
  }

  /** Two position buffers that both hold the first `n` grid points agree. */
  lemma PositionsUnique(res: int, surface: (real, real) -> Vec3, s: seq<real>, t: seq<real>, n: nat)
    requires res >= 2 && PositionsOk(res, surface, s, n) && PositionsOk(res, surface, t, n)
    ensures s == t
  {
    forall i | 0 <= i < |s|
      ensures s[i] == t[i]
    {
      var k := i / 3;
      assert Triple(s, k) == Triple(t, k);
    }
  }

  /** Two UV buffers that both hold the first `n` grid points agree. */
  lemma UVsUnique(res: int, s: seq<real>, t: seq<real>, n: nat)
    requires res >= 2 && UVsOk(res, s, n) && UVsOk(res, t, n)
    ensures s == t
  {
    forall i | 0 <= i < |s|
      ensures s[i] == t[i]
    {
      var k := i / 2;
      assert Pair(s, k) == Pair(t, k);
    }
  }

  /** Two index buffers that both hold the first `m` cells agree. */
  lemma IndicesUnique(res: int, s: seq<int>, t: seq<int>, m: nat)
    requires res >= 2 && IndicesOk(res, s, m) && IndicesOk(res, t, m)
    ensures s == t
  {
    forall i | 0 <= i < |s|
      ensures s[i] == t[i]
    {
      IndexEntryCell(res, s, m, i);
      IndexEntryCell(res, t, m, i);
    }
  }

  /** The face buffers are determined by the resolution and the surface:
      building them twice from the same inputs gives identical buffers. */
  lemma FaceMeshUnique(res: int, surface: (real, real) -> Vec3, a: MeshBuffers, b: MeshBuffers)
    requires res >= 2 && IsFaceMesh(res, surface, a) && IsFaceMesh(res, surface, b)
    ensures a == b
  {
    PositionsUnique(res, surface, a.positions, b.positions, res * res);
    UVsUnique(res, a.uvs, b.uvs, res * res);
    IndicesUnique(res, a.indices, b.indices, CellCount(res));
  }

  /** The smallest grid, resolution 2: four vertices and one cell holding two
      triangles. */
  lemma MinimalMesh(surface: (real, real) -> Vec3, b: MeshBuffers)
    requires IsFaceMesh(2, surface, b)
    ensures |b.positions| == 12 && |b.uvs| == 8
    ensures b.indices == [0, 3, 2, 0, 1, 3]
    ensures b.uvs == [0.0, 0.0, 1.0, 0.0, 0.0, 1.0, 1.0, 1.0]
  {
    assert Sextet(b.indices, 0) == CellIndices(2, 0, 0);
    assert Pair(b.uvs, 0) == (0.0, 0.0);
    assert Pair(b.uvs, 1) == (1.0, 0.0);
    assert Pair(b.uvs, 2) == (0.0, 1.0);
    assert Pair(b.uvs, 3) == (1.0, 1.0);
  }
}
