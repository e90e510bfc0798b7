/** The planet's loosely typed settings object and the shape generator that
    turns a point on the unit sphere into a point on the planet's surface. */
module Settings {
  import opened Vectors

  datatype Option<T> = None | Some(value: T)

  /** The settings object handed to the planet. It is shared: the caller keeps
      its reference and may reassign a field at any time, and the shape
      generator holds the same reference. A field is `None` when it is absent;
      for `planetRadius`, `None` also stands for any value whose type is not a
      number. A settings argument that is not an object at all (a bare
      number, say) reads as three absent fields. */
  class Settings {
    var planetResolution: Option<int>
    var planetRadius: Option<real>
    var planetColor: Option<int>

    constructor (planetResolution: Option<int>, planetRadius: Option<real>, planetColor: Option<int>)
      ensures this.planetResolution == planetResolution
      ensures this.planetRadius == planetRadius
      ensures this.planetColor == planetColor
    {
      this.planetResolution := planetResolution;
      this.planetRadius := planetRadius;
      this.planetColor := planetColor;
    }
  }

  /** The radius the shape generator scales by, read from the settings as
      they are now: the configured radius when the settings exist and hold a
      number there, 1 otherwise. */
  function Radius(settings: Settings?): (r: real)
    reads settings
    ensures settings != null && settings.planetRadius.Some? ==> r == settings.planetRadius.value
    ensures settings == null || settings.planetRadius.None? ==> r == 1.0
  {
    if settings != null then
      match settings.planetRadius
      case Some(radius) => radius
      case None => 1.0
    else 1.0
  }

  /** Shares the settings object and owns the noise filter. The noise
      filter's evaluation (simplex noise mapped into [0, 1]) belongs to a
      library outside this model, so it is the function `noise`. */
  class ShapeGenerator {
    const settings: Settings?
    const noise: Vec3 -> real

    /** Keeps the caller's settings object itself, not a copy of its fields:
        later changes to it are seen by every later radius lookup. */
    constructor (settings: Settings?, noise: Vec3 -> real)
      ensures this.settings == settings && this.noise == noise
    {
      this.settings := settings;
      this.noise := noise;
    }

    /** A copy of the point scaled by the radius the settings hold at the
        time of the call; the argument is not changed (it is a value here). */
    function CalculatePointOnPlanet(pointOnUnitSphere: Vec3): (p: Vec3)
      reads settings
      ensures settings != null && settings.planetRadius.Some? ==>
                p == Scale(pointOnUnitSphere, settings.planetRadius.value)
      ensures settings == null || settings.planetRadius.None? ==> p == pointOnUnitSphere
    {
      Scale(pointOnUnitSphere, Radius(settings))
    }

    /** The vertex a face emits is the point on the planet multiplied
        component-wise by the elevation, at the radius the settings hold. */
    lemma VertexOfPointOnPlanet(elevation: real, pointOnUnitSphere: Vec3)
      ensures var p := CalculatePointOnPlanet(pointOnUnitSphere);
              Vec3(p.x * elevation, p.y * elevation, p.z * elevation)
              == PlanetVertex(Radius(settings), elevation, pointOnUnitSphere)
    {
    }
  }

  /** The final vertex a terrain face emits for a point on the unit sphere at
      radius `radius`: the point on the planet multiplied component-wise by
      the elevation. The radius and the elevation thus act as one
      multiplicative factor. */
  function PlanetVertex(radius: real, elevation: real, pointOnUnitSphere: Vec3): (v: Vec3)
    ensures v == Scale(pointOnUnitSphere, radius * elevation)
  {
    Scale(Scale(pointOnUnitSphere, radius), elevation)
  }

  /** A vertex's squared distance from the centre is the unit point's squared
      length times (radius * elevation) squared: with elevation 1 a point on
      the unit sphere lands on the sphere of the configured radius. */
  lemma PlanetVertexLength(radius: real, elevation: real, p: Vec3)
    ensures Dot(PlanetVertex(radius, elevation, p), PlanetVertex(radius, elevation, p))
            == Dot(p, p) * (radius * elevation) * (radius * elevation)
  {
    var f := radius * elevation;
    assert p.x * f * (p.x * f) == p.x * p.x * (f * f);
    assert p.y * f * (p.y * f) == p.y * p.y * (f * f);
    assert p.z * f * (p.z * f) == p.z * p.z * (f * f);
  }
}
