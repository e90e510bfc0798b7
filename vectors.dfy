/** Three-component vectors over exact reals, standing in for the vector type of
    the 3D library used by the planet generator (only the operations the
    generator calls are modelled). */
module Vectors {

  datatype Vec3 = Vec3(x: real, y: real, z: real)

  function Add(a: Vec3, b: Vec3): Vec3 {
    Vec3(a.x + b.x, a.y + b.y, a.z + b.z)
  }

  function Sub(a: Vec3, b: Vec3): Vec3 {
    Vec3(a.x - b.x, a.y - b.y, a.z - b.z)
  }

  /** Component-wise multiplication by a scalar (the library's multiplyScalar). */
  function Scale(a: Vec3, s: real): Vec3 {
    Vec3(a.x * s, a.y * s, a.z * s)
  }

  function Dot(a: Vec3, b: Vec3): real {
    a.x * b.x + a.y * b.y + a.z * b.z
  }

  /** Right-handed cross product (the library's crossVectors). */
  function Cross(a: Vec3, b: Vec3): Vec3 {
    Vec3(a.y * b.z - a.z * b.y, a.z * b.x - a.x * b.z, a.x * b.y - a.y * b.x)
  }

  /** One component of the expansion of a cross product of two combinations
      of `a` and `b`, stated over the components as plain numbers. */
  lemma CrossComponent(u1: real, u2: real, v1: real, v2: real, c: real, k: real,
                       a1: real, a2: real, b1: real, b2: real, s: real, t: real, p: real, q: real)
    requires u1 == a1 * s + b1 * t && u2 == a2 * s + b2 * t
    requires v1 == a1 * p + b1 * q && v2 == a2 * p + b2 * q
    requires c == a1 * b2 - a2 * b1 && k == s * q - t * p
    ensures u1 * v2 - u2 * v1 == c * k
  {
  }

  lemma CrossOfCombinationsX(a: Vec3, b: Vec3, s: real, t: real, p: real, q: real, k: real)
    requires k == s * q - t * p
    ensures Cross(Add(Scale(a, s), Scale(b, t)), Add(Scale(a, p), Scale(b, q))).x == Cross(a, b).x * k
  {
    CrossComponent(a.y * s + b.y * t, a.z * s + b.z * t, a.y * p + b.y * q, a.z * p + b.z * q,
                   a.y * b.z - a.z * b.y, k, a.y, a.z, b.y, b.z, s, t, p, q);
  }

  lemma CrossOfCombinationsY(a: Vec3, b: Vec3, s: real, t: real, p: real, q: real, k: real)
    requires k == s * q - t * p
    ensures Cross(Add(Scale(a, s), Scale(b, t)), Add(Scale(a, p), Scale(b, q))).y == Cross(a, b).y * k
  {
    CrossComponent(a.z * s + b.z * t, a.x * s + b.x * t, a.z * p + b.z * q, a.x * p + b.x * q,
                   a.z * b.x - a.x * b.z, k, a.z, a.x, b.z, b.x, s, t, p, q);
  }

  lemma CrossOfCombinationsZ(a: Vec3, b: Vec3, s: real, t: real, p: real, q: real, k: real)
    requires k == s * q - t * p
    ensures Cross(Add(Scale(a, s), Scale(b, t)), Add(Scale(a, p), Scale(b, q))).z == Cross(a, b).z * k
  {
    CrossComponent(a.x * s + b.x * t, a.y * s + b.y * t, a.x * p + b.x * q, a.y * p + b.y * q,
                   a.x * b.y - a.y * b.x, k, a.x, a.y, b.x, b.y, s, t, p, q);
  }

  /** The cross product is bilinear and alternating:
      (s a + t b) x (p a + q b) == (s q - t p) (a x b). */
  lemma CrossOfCombinations(a: Vec3, b: Vec3, s: real, t: real, p: real, q: real, k: real)
    requires k == s * q - t * p
    ensures Cross(Add(Scale(a, s), Scale(b, t)), Add(Scale(a, p), Scale(b, q))) == Scale(Cross(a, b), k)
  {
    CrossOfCombinationsX(a, b, s, t, p, q, k);
    CrossOfCombinationsY(a, b, s, t, p, q, k);
    CrossOfCombinationsZ(a, b, s, t, p, q, k);
  }
}
