/**
 * The small part of glm the core uses, over exact reals: component-wise
 * sums and differences, scaling, the dot product and the cross product.
 * Floating-point rounding is not modelled.
 */
module Vectors {

  datatype Vec2 = Vec2(x: real, y: real)
  datatype Vec3 = Vec3(x: real, y: real, z: real)

  /** A four-component vector; glm's `.r .g .b .a` name the same slots as `.x .y .z .w`. */
  datatype Vec4 = Vec4(r: real, g: real, b: real, a: real)

  const Zero2: Vec2 := Vec2(0.0, 0.0)
  const Zero3: Vec3 := Vec3(0.0, 0.0, 0.0)
  const Zero4: Vec4 := Vec4(0.0, 0.0, 0.0, 0.0)

  function Add(a: Vec3, b: Vec3): Vec3 {
    Vec3(a.x + b.x, a.y + b.y, a.z + b.z)
  }

  function Sub(a: Vec3, b: Vec3): Vec3 {
    Vec3(a.x - b.x, a.y - b.y, a.z - b.z)
  }

  function Scale(k: real, a: Vec3): Vec3 {
    Vec3(k * a.x, k * a.y, k * a.z)
  }

  function Dot(a: Vec3, b: Vec3): real {
    a.x * b.x + a.y * b.y + a.z * b.z
  }

  function Cross(a: Vec3, b: Vec3): Vec3 {
    Vec3(a.y * b.z - a.z * b.y, a.z * b.x - a.x * b.z, a.x * b.y - a.y * b.x)
  }

  function Sub2(a: Vec2, b: Vec2): Vec2 {
    Vec2(a.x - b.x, a.y - b.y)
  }

  function Add2(a: Vec2, b: Vec2): Vec2 {
    Vec2(a.x + b.x, a.y + b.y)
  }

  /** The `.rgb` swizzle of a four-component vector. */
  function Rgb(c: Vec4): Vec3 {
    Vec3(c.r, c.g, c.b)
  }

  /** Assigning the `.rgb` slots of `c`; the fourth slot is kept. */
  function WithRgb(c: Vec4, v: Vec3): (r: Vec4)
    ensures Rgb(r) == v && r.a == c.a
  {
    Vec4(v.x, v.y, v.z, c.a)
  }

  /** The cross product is orthogonal to both of its arguments. */
  lemma CrossOrthogonal(a: Vec3, b: Vec3)
    ensures Dot(Cross(a, b), a) == 0.0
    ensures Dot(Cross(a, b), b) == 0.0
  {
  }
}
