/** The planet: a group holding six meshes, one per cube face, and the six
    terrain faces that fill the meshes' geometries. It clamps its resolution,
    rebuilds all six faces from scratch when asked to, and regenerates every
    face's mesh. */
module Planets {
  import opened Vectors
  import opened Settings
  import opened Tessellation
  import opened Faces

  const MinResolution := 2
  const MaxResolution := 256
  const DefaultResolution := 10
  const DefaultColor := 0xffffff

  function Max(a: int, b: int): int {
    if a < b then b else a
  }

  /** max(2, min(256, n)): the resolution the planet actually uses. Values
      already in range are kept; values outside snap to the nearer bound. */
  function Clamp(n: int): (r: int)
    ensures MinResolution <= r <= MaxResolution
    ensures MinResolution <= n <= MaxResolution ==> r == n
    ensures n < MinResolution ==> r == MinResolution
    ensures n > MaxResolution ==> r == MaxResolution
  {
    Max(MinResolution, Min(MaxResolution, n))
  }

  /** The resolution a new planet starts with: a missing or zero
      `planetResolution` falls back to 10 (the `||` default), and the result
      is clamped. */
  function InitialResolution(planetResolution: Option<int>): (r: int)
    ensures MinResolution <= r <= MaxResolution
    ensures planetResolution.None? ==> r == DefaultResolution
    ensures planetResolution == Some(0) ==> r == DefaultResolution
    ensures planetResolution.Some? && planetResolution.value != 0 ==>
              r == Clamp(planetResolution.value)
  {
    var requested :=
      match planetResolution
      case Some(n) => if n != 0 then n else DefaultResolution
      case None => DefaultResolution;
    Clamp(requested)
  }

  /** The planet's colour: a missing or zero `planetColor` falls back to
      white (so black, 0, also turns white). */
  function PlanetColor(planetColor: Option<int>): (c: int)
    ensures planetColor.None? || planetColor == Some(0) ==> c == DefaultColor
    ensures planetColor.Some? && planetColor.value != 0 ==> c == planetColor.value
  {
    match planetColor
    case Some(color) => if color != 0 then color else DefaultColor
    case None => DefaultColor
  }

  /** A mesh of the scene graph: a geometry shown with a material of one
      colour. */
  class Mesh {
    const geometry: Geometry
    const color: int

    constructor (geometry: Geometry, color: int)
      ensures this.geometry == geometry && this.color == color
    {
      this.geometry := geometry;
      this.color := color;
    }
  }

  /** The position of the first occurrence of `m` in `s`. */
  function IndexOf(s: seq<Mesh>, m: Mesh): (r: nat)
    requires m in s
    ensures r < |s| && s[r] == m
    ensures forall k :: 0 <= k < r ==> s[k] != m
  {
    if s[0] == m then 0 else 1 + IndexOf(s[1..], m)
  }

  /** A scene-graph group: an ordered list of child meshes. */
  class Group {
    var children: seq<Mesh>

    constructor ()
      ensures children == []
    {
      children := [];
    }

    /** Appends a child. */
    method Add(m: Mesh)
      modifies this
      ensures children == old(children) + [m]
    {
      children := children + [m];
    }

    /** Removes the first occurrence of a child; a mesh that is not a child
        leaves the group unchanged. */
    method Remove(m: Mesh)
      modifies this
      ensures m in old(children) ==>
        var i := IndexOf(old(children), m);
        children == old(children)[..i] + old(children)[i + 1..]
      ensures m !in old(children) ==> children == old(children)
    {
      if m in children {
        var i := IndexOf(children, m);
        children := children[..i] + children[i + 1..];
      }
    }
  }

  class Planet {
    var resolution: int
    const color: int
    const shapeGenerator: ShapeGenerator
    const group: Group
    var meshes: seq<Mesh>
    var terrainFaces: seq<TerrainFace>
    /** The 3D library's vector normalisation, handed to every face. */
    const normalize: Vec3 -> Vec3

    /** `face` is the terrain face of direction `k` and fills the geometry
        of `mesh`, at resolution `res`, with the planet's shape generator,
        normalisation and colour. */
    ghost predicate FaceOf(face: TerrainFace, mesh: Mesh, k: int, res: int)
      requires 0 <= k < 6
    {
      && face.localUp == Directions()[k]
      && face.axisA == AxisA(Directions()[k], normalize)
      && face.axisB == AxisB(Directions()[k], normalize)
      && face.normalize == normalize
      && face.resolution == res
      && face.shapeGenerator == shapeGenerator
      && face.geometry == mesh.geometry
      && mesh.color == color
    }

    /** Six meshes, all children of the group in order, and six terrain
        faces, face `i` built for direction `i` and mesh `i`; no two meshes
        share a geometry. */
    ghost predicate Wired()
      reads this, group
    {
      && |meshes| == 6 && |terrainFaces| == 6
      && group.children == meshes
      && (forall i :: 0 <= i < 6 ==> FaceOf(terrainFaces[i], meshes[i], i, resolution))
      && (forall i, j :: 0 <= i < j < 6 ==> meshes[i].geometry != meshes[j].geometry)
    }

    /** The planet's invariant: a clamped resolution and six wired faces. */
    ghost predicate Valid()
      reads this, group
    {
      && MinResolution <= resolution <= MaxResolution
      && Wired()
    }

    /** The geometries the faces fill. */
    ghost function Geometries(): set<Geometry>
      reads this
    {
      set i | 0 <= i < |terrainFaces| :: terrainFaces[i].geometry
    }

    /** Every face's geometry holds that face's complete mesh, at the radius
        the shared settings hold now. A later change to `planetRadius` leaves
        the meshes as they are, so they no longer satisfy this until the next
        rebuild. */
    ghost predicate Generated()
      requires Valid()
      reads this, group, Geometries(), shapeGenerator.settings
    {
      forall i :: 0 <= i < 6 ==> terrainFaces[i].Holds(Radius(shapeGenerator.settings))
    }

    /** Resolution and colour are read from the settings once, here; the
        settings object itself is shared with the shape generator. */
    constructor (settings: Settings, noise: Vec3 -> real, normalize: Vec3 -> Vec3)
      ensures Valid() && Generated()
      ensures resolution == InitialResolution(settings.planetResolution)
      ensures color == PlanetColor(settings.planetColor)
      ensures shapeGenerator.settings == settings && shapeGenerator.noise == noise
      ensures this.normalize == normalize
    {
      resolution := InitialResolution(settings.planetResolution);
      color := PlanetColor(settings.planetColor);
      shapeGenerator := new ShapeGenerator(settings, noise);
      group := new Group();
      meshes := [];
      terrainFaces := [];
      this.normalize := normalize;
      new;
      Initialize();
      GenerateMesh();
    }

    /** Empties the group, then creates, for each of the six directions in
        order, a fresh geometry, a mesh showing it (added to the group) and
        the terrain face that will fill it. */
    method Initialize()
      modifies this, group
      ensures Wired()
      ensures resolution == old(resolution)
      ensures forall i :: 0 <= i < 6 ==> fresh(meshes[i]) && fresh(meshes[i].geometry) && fresh(terrainFaces[i])
      ensures forall i :: 0 <= i < 6 ==> meshes[i].geometry.Buffers() == MeshBuffers([], [], [])
    {
      while |group.children| > 0
        invariant resolution == old(resolution)
        decreases |group.children|
      {
        group.Remove(group.children[0]);
      }
      meshes := [];
      terrainFaces := [];
      for i := 0 to 6
        invariant |meshes| == i && |terrainFaces| == i
        invariant resolution == old(resolution)
        invariant group.children == meshes
        invariant forall k :: 0 <= k < i ==> FaceOf(terrainFaces[k], meshes[k], k, resolution)
        invariant forall k, l :: 0 <= k < l < i ==> meshes[k].geometry != meshes[l].geometry
        invariant forall k :: 0 <= k < i ==>
          fresh(meshes[k]) && fresh(meshes[k].geometry) && fresh(terrainFaces[k])
        invariant forall k :: 0 <= k < i ==> meshes[k].geometry.Buffers() == MeshBuffers([], [], [])
      {
        var mesh, face := NewFace(i);
        meshes := meshes + [mesh];
        group.Add(mesh);
        terrainFaces := terrainFaces + [face];
      }
    }

    /** One iteration's new objects: a fresh, empty geometry, a mesh showing
        it in the planet's colour, and the terrain face of direction `k` that
        will fill it at the current resolution. */
    method NewFace(k: int) returns (mesh: Mesh, face: TerrainFace)
      requires 0 <= k < 6
      ensures fresh(mesh) && fresh(mesh.geometry) && fresh(face)
      ensures FaceOf(face, mesh, k, resolution)
      ensures mesh.geometry.Buffers() == MeshBuffers([], [], [])
    {
      var geometry := new Geometry();
      mesh := new Mesh(geometry, color);
      face := new TerrainFace(shapeGenerator, geometry, resolution, Directions()[k], normalize);
    }

    /** Builds the mesh of every face, in order. */
    method GenerateMesh()
      requires Valid()
      modifies Geometries()
      ensures Valid() && Generated()
    {
      ghost var radius := Radius(shapeGenerator.settings);
      for i := 0 to 6
        invariant Valid() && Radius(shapeGenerator.settings) == radius
        invariant forall k :: 0 <= k < i ==> terrainFaces[k].Holds(radius)
      {
        terrainFaces[i].ConstructMesh();
      }
    }

    /** Clamps the new resolution, then rebuilds and regenerates all six
        faces, at the radius the shared settings hold now. */
    method SetResolution(newResolution: int)
      requires Valid()
      modifies this, group
      ensures Valid() && Generated()
      ensures resolution == Clamp(newResolution)
      ensures forall i :: 0 <= i < 6 ==> fresh(meshes[i]) && fresh(terrainFaces[i])
    {
      resolution := Clamp(newResolution);
      Initialize();
      GenerateMesh();
    }

    /** The basis of every face of a valid planet is right-handed, for a
        normalisation that keeps unit axis vectors as they are. */
    lemma FaceRightHanded(i: int)
      requires Valid() && FixesAxisVectors(normalize) && 0 <= i < 6
      ensures Cross(terrainFaces[i].axisA, terrainFaces[i].axisB) == Directions()[i]
    {
      BasisOrthonormal(i, normalize);
    }

    /** Every face of a generated planet winds outward: both triangles stored
        for every cell of face `i`, taken through the index buffer, have a
        normal pointing along direction `i`, for a normalisation that keeps
        unit axis vectors as they are. */
    lemma FacesWindOutward(i: int, j: int)
      requires Valid() && Generated() && FixesAxisVectors(normalize)
      requires 0 <= i < 6 && 0 <= j < CellCount(resolution)
      ensures 6 * j + 6 <= |terrainFaces[i].geometry.index|
      ensures CellFacesOutward(Directions()[i], terrainFaces[i].axisA, terrainFaces[i].axisB,
                               resolution, terrainFaces[i].geometry.index, j)
    {
      FaceRightHanded(i);
      terrainFaces[i].WindsOutward(Radius(shapeGenerator.settings), j);
    }
  }
}
