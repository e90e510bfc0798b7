# Procedural planet: cube-sphere tessellation and planet lifecycle

A model of the mesh generator in `planet.js`. A planet is six square grids,
one for each face of a cube, each pushed out onto a sphere and scaled by a
radius and a noise-driven elevation. The model covers:

- **ShapeGenerator** (`settings.dfy`): the settings object, which the caller
  and the shape generator share and which the caller may change at any time,
  the radius-default rule and the point-on-planet scaling.
- **TerrainFace** (`terrain_face.dfy`, `tessellation.dfy`): the face basis
  derived from the face direction, and `constructMesh`. That method walks a
  `resolution x resolution` grid row by row (y outer, x inner). For each grid
  point it pushes one vertex (three position components) and one UV pair. For
  each cell that has a right and a lower neighbour it pushes two triangles,
  indexed from `current = x + y * resolution`. The loop is the method
  `Tessellation.Tessellate`. It is proved against closed-form descriptions of
  the three buffers (`PositionsOk`, `UVsOk`, `IndicesOk`, combined in
  `IsFaceMesh`). The lemmas beside it derive the lengths, the index pattern,
  the slot-to-grid-point mapping, the index range, the determinism of the
  output and the winding of the triangles.
- **Planet** (`planet.dfy`): the resolution clamp and the `||` defaults of the
  constructor. It also covers `initialize`, which empties the scene group and
  builds six fresh meshes and six faces, one per direction in a fixed order.
  `generateMesh` runs every face, and `setResolution` clamps, rebuilds and
  regenerates. The planet's invariant `Valid()` holds after the constructor
  and after every `SetResolution`, and so does `Generated()`: every face's
  geometry holds that face's complete mesh at the radius the shared settings
  hold at that moment.

Vectors are exact: `Vec3` over `real` (`vectors.dfy`). The 3D library's
`normalize` and the noise filter's `evaluate` are function parameters
(`normalize: Vec3 -> Vec3`, `noise: Vec3 -> real`). Vertex positions are
therefore stated as "the surface function at the grid point's fractions",
whatever that function computes. Where a proof needs something from
`normalize`, it assumes exactly one thing, as a precondition:
`FixesAxisVectors(normalize)`, meaning the six unit axis vectors come back
unchanged.

### Behaviour of the code worth noting
- The default resolution is applied with `||`, so a `planetResolution` of 0
  also becomes 10 before clamping. The same holds for `planetColor`: 0 (black)
  becomes white.
- The radius is used whenever it is a number. Zero and negative radii are not
  rejected.
- Resolution and colour are read from the settings once, in the constructor.
  The radius is read from the shared settings object every time a mesh is
  built. So assigning `settings.planetRadius` and then calling
  `setResolution` rebuilds every face at the new radius, while a changed
  `planetColor` or `planetResolution` field has no effect. The planet has no
  operation of its own that changes radius or colour.
- A face's vertex is the radius-scaled point multiplied component-wise by the
  elevation (`PlanetVertex`). Radius and elevation act as one factor.

## Model

| member | source | states |
|---|---|---|
| Settings.Settings.constructor | planet.js:86 | a settings object holds the three fields it was created with |
| Settings.Radius | planet.js:12-14 | the radius is the `planetRadius` the settings hold now when the settings exist and hold a number there, and 1 otherwise |
| Settings.ShapeGenerator.constructor | planet.js:6-9 | the generator shares the caller's settings object itself (not a copy), and keeps its noise filter |
| Settings.ShapeGenerator.CalculatePointOnPlanet | planet.js:11-19 | the result is the point scaled by the current `planetRadius` when the settings hold a number there, and the point itself otherwise |
| Settings.ShapeGenerator.VertexOfPointOnPlanet | planet.js:56-61 | multiplying the point on the planet component-wise by the elevation gives `PlanetVertex` at the settings' current radius |
| Settings.PlanetVertex | planet.js:53-61 | the emitted vertex is the unit-sphere point scaled by radius times elevation |
| Settings.PlanetVertexLength | planet.js:56-61 | a vertex's squared length is the unit point's squared length times (radius * elevation)^2, so with elevation 1 a unit point lands on the sphere of the configured radius |
| Tessellation.PositionsStep | planet.js:57-61 | pushing the surface point of slot n extends a position buffer that holds slots 0..n-1 to one that holds slots 0..n |
| Tessellation.UVsStep | planet.js:63 | pushing (x/(res-1), y/(res-1)) for slot n extends the UV buffer by exactly that slot's pair |
| Tessellation.IndicesStep | planet.js:65-71 | pushing the six indices of cell (x, y) extends an index buffer of the first `y*(res-1)+x` cells by the next cell in row-major order |
| Tessellation.DivMod | planet.js:41-42 | the slot `y*res + x` (with `x < res`) maps back to column x and row y under div and mod |
| Tessellation.Tessellate | planet.js:36-73 | the nested loop produces buffers satisfying `IsFaceMesh`, with 3·res² position components, 2·res² UV components, 6·(res-1)² indices, each index in [0, res²) |
| Tessellation.CellCorners | planet.js:66-70 | the six indices of cell (x, y) address the grid points (x,y), (x+1,y+1), (x,y+1) and then (x,y), (x+1,y), (x+1,y+1): the cell's own corners |
| Tessellation.CellIndicesInRange | planet.js:66-70 | every index of a cell lies in [0, res²), and the three indices of each triangle are pairwise distinct |
| Tessellation.CellOfBuffer | planet.js:65-71 | entries 6j..6j+5 of a complete index buffer are the index pattern of cell (j mod (res-1), j div (res-1)) |
| Tessellation.IndexEntryCell | planet.js:65-71 | entry i of an index buffer is entry i mod 6 of the pattern of cell i div 6, and that cell exists |
| Tessellation.IndexEntryInRange | planet.js:66-69 | any single entry of a complete index buffer refers to an existing vertex |
| Tessellation.IndexBufferInRange | planet.js:65-71 | every entry of a complete index buffer refers to an existing vertex |
| Tessellation.PositionsUnique | planet.js:57-61 | two position buffers that both describe the first n grid points are equal |
| Tessellation.UVsUnique | planet.js:63 | two UV buffers that both describe the first n grid points are equal |
| Tessellation.IndicesUnique | planet.js:65-71 | two index buffers that both describe the first m cells are equal |
| Tessellation.FaceMeshUnique | planet.js:36-82 | the face buffers are determined by resolution and surface: rebuilding a face reproduces identical buffers |
| Tessellation.MinimalMesh | planet.js:41-71 | at resolution 2 a face has 4 vertices, UVs (0,0),(1,0),(0,1),(1,1) and exactly the index buffer [0,3,2,0,1,3] |
| Faces.Geometry.constructor | planet.js:123 | a new geometry has empty position, UV and index attributes |
| Faces.TerrainFace.constructor | planet.js:23-34 | the face stores its generator, geometry, resolution and direction; axisB is the normalised `localUp x (y,z,x)`, and axisA is the normalised `axisB x localUp` |
| Faces.TerrainFace.SurfacePoint | planet.js:47-61 | the vertex for fractions (px, py) at radius r is the normalised cube point scaled by r times the noise value there |
| Faces.TerrainFace.HeldIndices | planet.js:65-78 | once a face holds its mesh, its index attribute lists the triangles of all (res-1)² cells in row-major order |
| Faces.TerrainFace.WindsOutward | planet.js:65-70 | on a face with a right-handed basis that holds its mesh, both triangles of every cell of the index attribute face outward along localUp |
| Faces.TerrainFace.ConstructMesh | planet.js:36-82 | the geometry's attributes become exactly this face's complete mesh (`Holds`) at the radius the shared settings hold, with the lengths and index range of `Tessellate` |
| Faces.DirectionPairs | planet.js:113-120 | the six directions are three positive unit axis vectors, each followed by its opposite |
| Faces.RotatedCrossOfDirection | planet.js:28-29 | for each direction, `localUp x (y,z,x)` is the face's tabulated second axis |
| Faces.ReorthogonalisedAxis | planet.js:31 | for each direction, `axisB x localUp` is the face's tabulated first axis |
| Faces.BasisAxesAreDirections | planet.js:28-31 | both tabulated axes of every face are themselves axis directions (so normalisation leaves them unchanged) |
| Faces.FirstAxisUnit | planet.js:31 | every face's first axis has length 1 |
| Faces.SecondAxisUnit | planet.js:29 | every face's second axis has length 1 |
| Faces.DirectionUnit | planet.js:113-120 | every face direction has length 1 |
| Faces.AxesOrthogonal | planet.js:28-31 | the two axes of every face are orthogonal |
| Faces.FirstAxisOrthogonal | planet.js:30-31 | every face's first axis is orthogonal to its direction |
| Faces.SecondAxisOrthogonal | planet.js:28-29 | every face's second axis is orthogonal to its direction |
| Faces.TableRightHanded | planet.js:28-31 | for every face, axisA x axisB is the direction itself |
| Faces.BasisOrthonormal | planet.js:28-31 | for each of the six directions, the constructor's axes are the tabulated ones, and (axisA, axisB, localUp) is an orthonormal right-handed basis |
| Faces.CubeOffset | planet.js:47-49 | moving (dx, dy) across a face moves the cube point by 2·dx·axisA + 2·dy·axisB |
| Faces.TriangleNormal | planet.js:47-49 | the normal of a triangle of cube points is axisA x axisB times 4 times the triangle's signed doubled area in face fractions |
| Faces.PercentStep | planet.js:44-45 | adjacent grid columns (rows) are exactly 1/(res-1) apart in face fractions |
| Faces.CornerWinding | planet.js:66-70 | on a right-handed face, both triangles of the index pattern, taken on cube points at a square's corners, have normal 4·d²·localUp, pointing outward |
| Faces.FirstGridTriangle | planet.js:66-68 | the first triangle of grid cell (x, y), on cube points, has normal 4/(res-1)²·localUp |
| Faces.SecondGridTriangle | planet.js:66-69 | the second triangle of grid cell (x, y), on cube points, has normal 4/(res-1)²·localUp |
| Faces.FirstTriangleWinding | planet.js:66-68 | the first three indices emitted for cell (x, y) address a triangle whose normal is 4/(res-1)²·localUp |
| Faces.SecondTriangleWinding | planet.js:66-69 | the last three indices emitted for cell (x, y) address a triangle whose normal is 4/(res-1)²·localUp |
| Faces.FirstTriangleOfCell | planet.js:65-71 | in a complete index buffer, the first triangle stored for cell j faces outward along localUp |
| Faces.SecondTriangleOfCell | planet.js:65-71 | in a complete index buffer, the second triangle stored for cell j faces outward along localUp |
| Faces.FaceWindsOutward | planet.js:65-71 | winding is consistent across a whole face: every cell of a complete index buffer faces outward |
| Planets.Clamp | planet.js:90 | the clamped resolution lies in [2, 256], equals n when n is already in range, and is the nearer bound otherwise |
| Planets.InitialResolution | planet.js:87-90 | a new planet's resolution is 10 when `planetResolution` is missing or 0, and the clamped value otherwise; it always lies in [2, 256] |
| Planets.PlanetColor | planet.js:88 | the colour is `planetColor` unless it is missing or 0, in which case it is 0xffffff |
| Planets.Mesh.constructor | planet.js:129 | a mesh shows the given geometry in the given colour |
| Planets.Group.constructor | planet.js:94 | a new group has no children |
| Planets.Group.Add | planet.js:131 | adding a mesh appends it to the group's children |
| Planets.Group.Remove | planet.js:107-109 | removing a child deletes its first occurrence; any other mesh leaves the group unchanged |
| Planets.Planet.constructor | planet.js:86-103 | the new planet has the resolution and colour the settings hold at construction (defaulted and clamped), a generator sharing the settings object, six wired faces (`Valid`), and all six meshes generated at the current radius |
| Planets.Planet.Initialize | planet.js:105-136 | the group's old children are all removed; afterwards there are six fresh meshes with fresh, empty geometries, children of the group in order, and six fresh faces, face i for direction i and mesh i, with no two sharing a geometry; the resolution is unchanged |
| Planets.Planet.NewFace | planet.js:123-134 | one iteration creates a fresh empty geometry, a mesh showing it in the planet's colour, and the terrain face of direction k that fills it |
| Planets.Planet.GenerateMesh | planet.js:138-142 | after the loop over the faces, every face's geometry holds that face's complete mesh at the current radius, and the planet stays valid |
| Planets.Planet.SetResolution | planet.js:144-148 | the resolution becomes the clamped argument; the planet is rebuilt with fresh meshes and faces and is fully regenerated at the radius the shared settings hold now |
| Planets.Planet.FaceRightHanded | planet.js:28-31 | every face of a valid planet has a right-handed basis, axisA x axisB == direction |
| Planets.Planet.FacesWindOutward | planet.js:65-71 | on a generated planet, both triangles of every cell of every face's index attribute face outward along that face's direction |

## Left out
- Floating point: all arithmetic is exact. Rounding in `x / (res - 1)`, in `addScaledVector`, in the elevation product and in the `Float32BufferAttribute` conversion is not modelled. For the six axis directions the basis cross products are exact even in floating point, since every component is 0 or ±1.
- Faces.TerrainFace.WindsOutward and the other winding lemmas: they are proved for the cube points of the grid, before `normalize` pushes them onto the sphere and before radius and elevation scale them. Orientation after the projection and the noise displacement is not proved.
- `normalize` and the noise filter: they are parameters. `noisefilter.js` (simplex noise mapped into [0, 1]) calls a library outside this model. The claim that every normalised point has length 1 is not stated.
- `computeVertexNormals` (planet.js:79): a library routine. Only the index and position attributes it reads are modelled.
- Resolution values that are not integers, `NaN`, or strings: resolution is an `int`. `setResolution` with a non-number is not modelled. A `NaN` radius is not modelled: the radius is a `real`, while the source accepts `NaN` (its type is `number`) and then emits `NaN` vertices.
- The settings argument itself being `null` or `undefined` would throw in the constructor. The model's constructor takes an existing settings object. A settings value that is not an object (main.js passes a number) reads as three absent fields.
- Faces.TerrainFace.ConstructMesh requires `resolution >= 2`, and the planet's invariant guarantees it. With resolution 1 the source divides 0 by 0, and that path is not modelled.
- Faces.TerrainFace.ConstructMesh reads the radius from the shared settings once per build, where the source asks the shape generator at every vertex (planet.js:56). Nothing changes the settings while a mesh is built, so every vertex sees the same radius either way.
- The unused `elevationGenerator` parameter of `constructMesh`: it is dropped.
- `addToScene` and `removeFromScene` (planet.js:150-156): scene-graph calls with no computation.
- The material object (`MeshStandardMaterial`): reduced to its colour on the mesh.
- Group.Add: the scene-graph library's rule that adding an object detaches it from a previous parent is not modelled. Every mesh added here is new and has no parent.
- `main.js`: DOM listeners, renderer, camera, lights and the animation loop are user interface and rendering.
