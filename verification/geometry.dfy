/**
 * The per-triangle records of 3Dobjects.hpp: the full `Triangle` built on the
 * CPU, the geometry-only `TriangleModel` and the shading-only
 * `TriangleShading` split records, and the `Object` group that owns triangles.
 */
module Geometry {
  import opened Words
  import opened Vectors
  import opened Results

  /** A fixed array of three vectors, one per corner (`glm::fvec3 x[3]`). */
  datatype Corners = Corners(c0: Vec3, c1: Vec3, c2: Vec3) {
    function At(i: nat): Vec3
      requires i < 3
    {
      if i == 0 then c0 else if i == 1 then c1 else c2
    }
  }

  const ZeroCorners: Corners := Corners(Zero3, Zero3, Zero3)

  datatype Triangle = Triangle(
    position: Vec3,
    u: Vec3,
    v: Vec3,
    normals: Corners,
    tangents: Corners,
    true_normal: Vec3,
    tex_p: Vec2,
    tex_u: Vec2,
    tex_v: Vec2,
    material_id: U32)

  /** The three corners a triangle record encodes: the origin and the origin plus each edge. */
  function Vertices(t: Triangle): (Vec3, Vec3, Vec3) {
    (t.position, Add(t.position, t.u), Add(t.position, t.v))
  }

  /** The texture coordinates of the three corners, recovered the same way. */
  function TexCorners(t: Triangle): (Vec2, Vec2, Vec2) {
    (t.tex_p, Add2(t.tex_p, t.tex_u), Add2(t.tex_p, t.tex_v))
  }

  /**
   * The default constructor. Position, edges, normals and texture
   * coordinates are zeroed; tangents, true normal and material id are left
   * uninitialised, which the model represents by copying them from
   * `indeterminate`, an arbitrary record standing for whatever the memory held.
   */
  function DefaultTriangle(indeterminate: Triangle): (t: Triangle)
    ensures t.position == Zero3 && t.u == Zero3 && t.v == Zero3
    ensures t.normals == ZeroCorners
    ensures t.tex_p == Zero2 && t.tex_u == Zero2 && t.tex_v == Zero2
    ensures Vertices(t) == (Zero3, Zero3, Zero3)
    ensures t.tangents == indeterminate.tangents
    ensures t.true_normal == indeterminate.true_normal
    ensures t.material_id == indeterminate.material_id
  {
    indeterminate.(position := Zero3, u := Zero3, v := Zero3, normals := ZeroCorners,
                   tex_p := Zero2, tex_u := Zero2, tex_v := Zero2)
  }

  /** The tangent direction before normalisation: the UV gradient along the edges. */
  function UvTangent(u: Vec3, v: Vec3, tex_u: Vec2, tex_v: Vec2): Vec3 {
    Sub(Scale(tex_v.x, u), Scale(tex_u.x, v))
  }

  /** `t` with its component along `n` removed (Gram-Schmidt step before normalising). */
  function Reject(t: Vec3, n: Vec3): Vec3 {
    Sub(t, Scale(Dot(n, t), n))
  }

  /**
   * The value constructor. `normalize` stands for glm::normalize, whose
   * floating-point result (NaN on a zero vector) is not modelled.
   */
  function MakeTriangle(p0: Vec3, p1: Vec3, p2: Vec3,
                        n0: Vec3, n1: Vec3, n2: Vec3,
                        t0: Vec2, t1: Vec2, t2: Vec2,
                        mat: U32, normalize: Vec3 -> Vec3): (t: Triangle)
    ensures Vertices(t) == (p0, p1, p2)
    ensures t.position == p0 && t.tex_p == t0
    ensures t.true_normal == Cross(t.u, t.v)
    ensures Dot(t.true_normal, t.u) == 0.0 && Dot(t.true_normal, t.v) == 0.0
    ensures t.normals == Corners(n0, n1, n2)
    ensures forall i :: 0 <= i < 3 ==>
              t.tangents.At(i) == normalize(Reject(UvTangent(t.u, t.v, t.tex_u, t.tex_v), t.normals.At(i)))
    ensures t.material_id == mat
  {
    var u := Sub(p1, p0);
    var v := Sub(p2, p0);
    var tu := Sub2(t1, t0);
    var tv := Sub2(t2, t0);
    var tangent := UvTangent(u, v, tu, tv);
    var normals := Corners(n0, n1, n2);
    var tangents := Corners(normalize(Reject(tangent, n0)),
                            normalize(Reject(tangent, n1)),
                            normalize(Reject(tangent, n2)));
    CrossOrthogonal(u, v);
    Triangle(p0, u, v, normals, tangents, Cross(u, v), t0, tu, tv, mat)
  }

  /** The texture coordinates round-trip through the origin-plus-edges encoding as well. */
  lemma MakeTriangleTexCorners(p0: Vec3, p1: Vec3, p2: Vec3,
                               n0: Vec3, n1: Vec3, n2: Vec3,
                               t0: Vec2, t1: Vec2, t2: Vec2,
                               mat: U32, normalize: Vec3 -> Vec3)
    ensures TexCorners(MakeTriangle(p0, p1, p2, n0, n1, n2, t0, t1, t2, mat, normalize)) == (t0, t1, t2)
  {
  }

  /**
   * Before normalisation each tangent is orthogonal to its unit-length corner
   * normal: the constructor's Gram-Schmidt step does what it is meant to.
   */
  lemma RejectOrthogonal(t: Vec3, n: Vec3)
    requires Dot(n, n) == 1.0
    ensures Dot(n, Reject(t, n)) == 0.0
  {
    var k := Dot(n, t);
    calc {
      Dot(n, Reject(t, n));
      n.x * (t.x - k * n.x) + n.y * (t.y - k * n.y) + n.z * (t.z - k * n.z);
      k - k * (n.x * n.x + n.y * n.y + n.z * n.z);
      0.0;
    }
  }

  /** The copy-assignment operator: every field is taken from `source`. */
  function Assign(target: Triangle, source: Triangle): (r: Triangle)
    ensures r == source
    ensures Vertices(r) == Vertices(source)
  {
    target.(position := source.position, u := source.u, v := source.v,
            tex_p := source.tex_p, tex_u := source.tex_u, tex_v := source.tex_v,
            normals := source.normals, tangents := source.tangents,
            true_normal := source.true_normal, material_id := source.material_id)
  }

  /** The geometry-only record read on the intersection path. */
  datatype TriangleModel = TriangleModel(true_normal: Vec3, position: Vec3, span_u: Vec3, span_v: Vec3)

  function DefaultTriangleModel(): (m: TriangleModel)
    ensures m.true_normal == Zero3 && m.position == Zero3
    ensures m.span_u == Zero3 && m.span_v == Zero3
  {
    TriangleModel(Zero3, Zero3, Zero3, Zero3)
  }

  /** The value constructor stores its arguments unchanged, in declaration order. */
  function MakeTriangleModel(n: Vec3, p: Vec3, u: Vec3, v: Vec3): (m: TriangleModel)
    ensures m.true_normal == n && m.position == p && m.span_u == u && m.span_v == v
  {
    TriangleModel(n, p, u, v)
  }

  /** The shading-only record read when a hit is shaded. */
  datatype TriangleShading = TriangleShading(
    material_id: U32,
    normals: Corners,
    tangents: Corners,
    tex_p: Vec2,
    tex_u: Vec2,
    tex_v: Vec2)

  function DefaultTriangleShading(): (s: TriangleShading)
    ensures s.material_id == 0
    ensures s.normals == ZeroCorners && s.tangents == ZeroCorners
    ensures s.tex_p == Zero2 && s.tex_u == Zero2 && s.tex_v == Zero2
  {
    TriangleShading(0, ZeroCorners, ZeroCorners, Zero2, Zero2, Zero2)
  }

  function MakeTriangleShading(mat: U32, n: Corners, t: Corners, p: Vec2, u: Vec2, v: Vec2): (s: TriangleShading)
    ensures s.material_id == mat
    ensures forall i :: 0 <= i < 3 ==> s.normals.At(i) == n.At(i) && s.tangents.At(i) == t.At(i)
    ensures s.tex_p == p && s.tex_u == u && s.tex_v == v
  {
    TriangleShading(mat, Corners(n.c0, n.c1, n.c2), Corners(t.c0, t.c1, t.c2), p, u, v)
  }

  /**
   * A named group of triangles. `material_index` is `None` until a
   * `usemtl` line assigns it: the source leaves the field uninitialised.
   */
  datatype Object = Object(name: string, triangles: seq<Triangle>, material_index: Option<int>)
}
