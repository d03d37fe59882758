/**
 * The GPU-side upload of Scene.cpp: the `st_RTCS_data` record
 * (RTCSBuffer.hpp), the lazy-creation rule of `MappedBuffer`, and
 * `finalizeObjects` with the triangle and material uploads it runs once.
 * GL objects are names drawn from a counter, so a created name is never 0;
 * every creation, deletion and compute dispatch is recorded as an event.
 */
module Device {
  import opened Words
  import opened Results
  import opened Geometry
  import opened SceneTables

  /** `glm::ivec2`. */
  datatype Res = Res(x: int, y: int)

  /** The pixel count of a resolution. */
  function Area(r: Res): int {
    r.x * r.y
  }

  datatype RtcsData = RtcsData(
    initialized: bool,
    resolution: Res,
    buffer_res: Res,
    triangles: U32,
    renderTarget: nat,
    renderTargetLow: nat,
    triangleBuffer: nat,
    materialBuffer: nat)

  /** The member initialisers of `st_RTCS_data`. */
  const InitialRtcsData: RtcsData := RtcsData(false, Res(0, 0), Res(0, 0), 0, 0, 0, 0, 0)

  datatype Program = RayTracer | SpatialSort | DrawBuffers

  datatype Event =
    | BufferCreated(name: nat, elements: int)       // storage for `elements` records
    | BufferDeleted(name: nat)
    | TextureCreated(name: nat, width: int, height: int)
    | TextureDeleted(name: nat)
    | Dispatched(program: Program, groupsX: int, groupsY: int)
    | RandomFilled(name: nat, count: int)           // the fill loop wrote `count` directions into the buffer

  /** The GL context as far as the model sees it: the last name handed out and the calls made so far. */
  datatype Gl = Gl(lastName: nat, log: seq<Event>)

  const InitialGl: Gl := Gl(0, [])

  /** Every handle a record holds is 0 or a name the context has handed out. */
  predicate Issued(gl: Gl, handle: nat) {
    handle <= gl.lastName
  }

  /** `glCreateBuffers` followed by `glNamedBufferStorage`. */
  function CreateBuffer(gl: Gl, elements: int): (nat, Gl) {
    (gl.lastName + 1, Gl(gl.lastName + 1, gl.log + [BufferCreated(gl.lastName + 1, elements)]))
  }

  /** `glCreateTextures` followed by `glTextureStorage2D`. */
  function CreateTexture(gl: Gl, width: int, height: int): (nat, Gl) {
    (gl.lastName + 1, Gl(gl.lastName + 1, gl.log + [TextureCreated(gl.lastName + 1, width, height)]))
  }

  /**
   * The constructor of `MappedBuffer`: storage for `count` records is created
   * only while the handle is still 0 and there is something to store. The
   * handle returned is the one the mapping then uses.
   */
  function MapBuffer(gl: Gl, handle: nat, count: int): (r: (nat, Gl))
    ensures handle == 0 && count > 0 ==>
              && r.0 != 0 && !Issued(gl, r.0) && Issued(r.1, r.0)
              && r.1.log == gl.log + [BufferCreated(r.0, count)]
    ensures handle != 0 || count <= 0 ==> r == (handle, gl)
    ensures gl.lastName <= r.1.lastName
  {
    if handle == 0 && count > 0 then CreateBuffer(gl, count) else (handle, gl)
  }

  /** Once a buffer exists, mapping it again creates nothing, whatever the count. */
  lemma MapBufferOnce(gl: Gl, count: int, later: int)
    requires count > 0
    ensures var (h, gl1) := MapBuffer(gl, 0, count);
            MapBuffer(gl1, h, later) == (h, gl1)
  {
  }

  // ------------------------------------------------------------ flattening

  /** The sum of the objects' triangle counts. */
  function TotalTriangles(objects: seq<Object>): nat {
    if |objects| == 0 then 0 else |objects[0].triangles| + TotalTriangles(objects[1..])
  }

  /** All triangles of all objects: object by object, and in each object in its own order. */
  function Flatten(objects: seq<Object>): (r: seq<Triangle>)
    ensures |r| == TotalTriangles(objects)
  {
    if |objects| == 0 then [] else objects[0].triangles + Flatten(objects[1..])
  }

  /** Where object `k`'s triangles begin in the flat array. */
  function Offset(objects: seq<Object>, k: nat): nat
    requires k <= |objects|
  {
    TotalTriangles(objects[..k])
  }

  lemma {:induction false} FlattenAppend(objects: seq<Object>, o: Object)
    ensures Flatten(objects + [o]) == Flatten(objects) + o.triangles
    ensures TotalTriangles(objects + [o]) == TotalTriangles(objects) + |o.triangles|
    decreases |objects|
  {
    if |objects| == 0 {
      assert objects + [o] == [o];
      assert [o][1..] == [];
    } else {
      assert (objects + [o])[1..] == objects[1..] + [o];
      FlattenAppend(objects[1..], o);
    }
  }

  /** Triangle `j` of object `k` sits at slot `Offset(k) + j` of the flat array. */
  lemma {:induction false} FlattenIndex(objects: seq<Object>, k: nat, j: nat)
    requires k < |objects| && j < |objects[k].triangles|
    ensures Offset(objects, k) + j < |Flatten(objects)|
    ensures Flatten(objects)[Offset(objects, k) + j] == objects[k].triangles[j]
    decreases k
  {
    if k == 0 {
      assert objects[..0] == [];
    } else {
      var rest := objects[1..];
      assert objects[..k][1..] == rest[..k - 1];
      assert objects[..k][0] == objects[0];
      FlattenIndex(rest, k - 1, j);
      assert objects[k] == rest[k - 1];
    }
  }

  /** Consecutive objects occupy consecutive, non-overlapping runs of slots. */
  lemma {:induction false} OffsetStep(objects: seq<Object>, k: nat)
    requires k < |objects|
    ensures Offset(objects, k + 1) == Offset(objects, k) + |objects[k].triangles|
  {
    assert objects[..k + 1] == objects[..k] + [objects[k]];
    FlattenAppend(objects[..k], objects[k]);
  }

  /**
   * The two loops of `createTrianglesBuffers`: the triangle count is summed
   * into an `unsigned int`, then every triangle is assigned, object by object,
   * to the next slot of the mapped buffer. This is the loop-by-loop reading
   * of the layout FinalizeObjects states directly: the slots are `Flatten`.
   */
  method UploadTriangles(objects: seq<Object>) returns (slots: seq<Triangle>, count: U32)
    ensures count == ToU32(TotalTriangles(objects))
    ensures slots == Flatten(objects)
  {
    var total := 0;
    var k := 0;
    while k < |objects|
      invariant 0 <= k <= |objects|
      invariant total == TotalTriangles(objects[..k])
    {
      assert objects[..k + 1] == objects[..k] + [objects[k]];
      FlattenAppend(objects[..k], objects[k]);
      total := total + |objects[k].triangles|;
      k := k + 1;
    }
    assert objects[..k] == objects;
    count := ToU32(total);

    slots := [];
    k := 0;
    while k < |objects|
      invariant 0 <= k <= |objects|
      invariant slots == Flatten(objects[..k])
    {
      var tris := objects[k].triangles;
      var j := 0;
      while j < |tris|
        invariant 0 <= j <= |tris|
        invariant slots == Flatten(objects[..k]) + tris[..j]
      {
        assert tris[..j + 1] == tris[..j] + [tris[j]];
        slots := slots + [Assign(DefaultTriangle(tris[j]), tris[j])];
        j := j + 1;
      }
      assert tris[..j] == tris;
      assert objects[..k + 1] == objects[..k] + [objects[k]];
      FlattenAppend(objects[..k], objects[k]);
      k := k + 1;
    }
    assert objects[..k] == objects;
  }

  /**
   * `createMaterialsBuffers`: the table size is taken as an `unsigned int`
   * and material k is assigned to slot k. This is the loop-by-loop reading
   * of the material slots FinalizeObjects states directly.
   */
  method CopyMaterials(materials: seq<Material>) returns (slots: seq<Material>)
    ensures |slots| == ToU32(|materials|)
    ensures forall k :: 0 <= k < |slots| ==> slots[k] == materials[k]
    ensures |materials| < U32_LIMIT ==> slots == materials
  {
    var count: U32 := ToU32(|materials|);
    slots := [];
    var index := 0;
    while index < count
      invariant 0 <= index <= count
      invariant slots == materials[..index]
    {
      assert materials[..index + 1] == materials[..index] + [materials[index]];
      slots := slots + [materials[index]];
      index := index + 1;
    }
    assert |materials| < U32_LIMIT ==> materials[..index] == materials;
  }

  // ------------------------------------------------------------ finalize

  /**
   * The random-direction buffer as `generateRandomUnitVectors` keeps it in its
   * function-local statics: the buffer name, `random_size` (the capacity in
   * four-component records) and whether the persistent mapping is valid.
   */
  datatype RandomBuffer = RandomBuffer(name: nat, size: int, mapped: bool)

  /**
   * Before the first call the static mapping is built over buffer 0 with a
   * count of 0: nothing is created and the mapping fails.
   */
  const InitialRandom: RandomBuffer := RandomBuffer(0, 0, false)

  /**
   * The device-side state of a `Scene`: the compute record, the GL context,
   * the buffers outside the record, what the uploads wrote, and the
   * function-local statics of `adaptResolution` (`hasRand`) and `render`
   * (`firstTime`).
   */
  datatype Gpu = Gpu(
    data: RtcsData,
    gl: Gl,
    modelBuffer: nat,
    triangleSlots: seq<Triangle>,
    materialSlots: seq<Material>,
    rayBuffer: nat,
    random: RandomBuffer,
    hasRand: bool,
    firstTime: bool)

  const InitialGpu: Gpu := Gpu(InitialRtcsData, InitialGl, 0, [], [], 0, InitialRandom, false, true)

  /** Every handle the state holds is 0 or a name already handed out, so a fresh name differs from all of them. */
  ghost predicate HandlesIssued(g: Gpu) {
    && Issued(g.gl, g.data.renderTarget) && Issued(g.gl, g.data.renderTargetLow)
    && Issued(g.gl, g.data.triangleBuffer) && Issued(g.gl, g.data.materialBuffer)
    && Issued(g.gl, g.modelBuffer) && Issued(g.gl, g.rayBuffer) && Issued(g.gl, g.random.name)
  }

  /** `(int)ceil(n / 64.0f)`: the work groups of 64 invocations needed for n items. */
  function Groups64(n: nat): (r: nat)
    ensures r * 64 >= n
    ensures r > 0 ==> (r - 1) * 64 < n
  {
    (n + 63) / 64
  }

  /**
   * `finalizeObjects`. The first call uploads the triangles (flattened) and
   * the materials, creates the per-triangle buffers, dispatches the sorting
   * and draw-buffer passes over ceil(n/64) groups and sets `initialized`;
   * every later call does nothing. More than 2^32-1 triangles would be
   * written past the buffer sized by the wrapped `unsigned int` count.
   */
  function FinalizeObjects(u: Gpu, objects: seq<Object>, materials: seq<Material>): (r: Result<Gpu, Fault>)
    ensures u.data.initialized ==> r == Ok(u)
    ensures !u.data.initialized ==> (r.Ok? <==> TotalTriangles(objects) < U32_LIMIT)
    ensures r.Err? ==> r.error == Undefined
    ensures r.Ok? && HandlesIssued(u) ==> HandlesIssued(r.value)
    ensures r.Ok? && !u.data.initialized ==>
              var n := TotalTriangles(objects);
              var v := r.value;
              && v.data.initialized
              && v.data.triangles == n
              && v.triangleSlots == Flatten(objects)
              && |v.materialSlots| == ToU32(|materials|)
              && (forall k :: 0 <= k < |v.materialSlots| ==> v.materialSlots[k] == materials[k])
              && v.data.resolution == u.data.resolution && v.data.buffer_res == u.data.buffer_res
              && v.data.renderTarget == u.data.renderTarget && v.data.renderTargetLow == u.data.renderTargetLow
              && v.rayBuffer == u.rayBuffer && v.random == u.random && v.hasRand == u.hasRand && v.firstTime == u.firstTime
              && (u.data.triangleBuffer == 0 && n > 0 <==> v.data.triangleBuffer != u.data.triangleBuffer)
              && (u.data.triangleBuffer == 0 && n > 0 ==> BufferCreated(v.data.triangleBuffer, n) in v.gl.log)
              && (v.data.triangleBuffer != 0 <==> u.data.triangleBuffer != 0 || n > 0)
              // the material buffer is created lazily as well
              && (u.data.materialBuffer == 0 && ToU32(|materials|) > 0 <==> v.data.materialBuffer != u.data.materialBuffer)
              && (u.data.materialBuffer == 0 && ToU32(|materials|) > 0 ==>
                    BufferCreated(v.data.materialBuffer, ToU32(|materials|)) in v.gl.log)
              // the model buffer is always created afresh, three vertices per triangle
              && v.modelBuffer != 0 && !Issued(u.gl, v.modelBuffer)
              && BufferCreated(v.modelBuffer, 3 * n) in v.gl.log
              && u.gl.log <= v.gl.log
              && |v.gl.log| >= |u.gl.log| + 2
              && v.gl.log[|v.gl.log| - 2] == Dispatched(SpatialSort, Groups64(n), 1)
              && v.gl.log[|v.gl.log| - 1] == Dispatched(DrawBuffers, Groups64(n), 1)
  {
    if u.data.initialized then Ok(u)
    else
      var n := TotalTriangles(objects);
      if n >= U32_LIMIT then Err(Undefined)
      else
        var (tb, gl1) := MapBuffer(u.gl, u.data.triangleBuffer, n);
        var (_, gl2) := CreateBuffer(gl1, n * n);         // the visibility buffer
        var (mb, gl3) := CreateBuffer(gl2, 3 * n);        // the model (vertex) buffer
        var count := ToU32(|materials|);
        var (matb, gl4) := MapBuffer(gl3, u.data.materialBuffer, count);
        var gl5 := gl4.(log := gl4.log + [Dispatched(SpatialSort, Groups64(n), 1), Dispatched(DrawBuffers, Groups64(n), 1)]);
        var data := u.data.(initialized := true, triangles := n, triangleBuffer := tb, materialBuffer := matb);
        Ok(u.(data := data, gl := gl5, modelBuffer := mb, triangleSlots := Flatten(objects), materialSlots := materials[..count]))
  }

  /** A second `finalizeObjects` is a no-op, whatever the scene holds by then. */
  lemma FinalizeOnce(u: Gpu, objects: seq<Object>, materials: seq<Material>,
                     objects': seq<Object>, materials': seq<Material>)
    requires FinalizeObjects(u, objects, materials).Ok?
    ensures var v := FinalizeObjects(u, objects, materials).value;
            v.data.initialized && FinalizeObjects(v, objects', materials') == Ok(v)
  {
  }

  /**
   * From the initial record the first call always uploads: `initialized`
   * starts false and every handle starts at 0, so a non-empty scene gets a
   * fresh triangle buffer sized to its triangle count.
   */
  lemma FirstFinalizeUploads(objects: seq<Object>, materials: seq<Material>)
    requires 0 < TotalTriangles(objects) < U32_LIMIT
    ensures var r := FinalizeObjects(InitialGpu, objects, materials);
            && r.Ok?
            && r.value.data.initialized
            && r.value.data.triangleBuffer != 0
            && BufferCreated(r.value.data.triangleBuffer, TotalTriangles(objects)) in r.value.gl.log
  {
  }

  /** The initial record: nothing uploaded, no resolution, and no GL object yet. */
  lemma InitialRtcsDataFacts()
    ensures !InitialRtcsData.initialized
    ensures Area(InitialRtcsData.resolution) == 0 && Area(InitialRtcsData.buffer_res) == 0
    ensures InitialRtcsData.triangles == 0
    ensures InitialRtcsData.renderTarget == 0 && InitialRtcsData.renderTargetLow == 0
    ensures InitialRtcsData.triangleBuffer == 0 && InitialRtcsData.materialBuffer == 0
  {
  }
}
