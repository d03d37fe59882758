/**
 * Resolution provisioning (Scene.cpp `adaptResolution` and the sizing and
 * indexing of `generateRandomUnitVectors`): the full-size and preview render
 * targets follow the pixel count, while the ray buffer and the
 * random-direction buffer only ever grow (high-water marks).
 */
module Resolution {
  import opened Words
  import opened Results
  import opened Device

  /**
   * A window size the source handles without undefined behaviour in its
   * `int` arithmetic: non-negative, with a pixel count that fits an `int`.
   */
  predicate ResOk(r: Res) {
    0 <= r.x && 0 <= r.y && r.x * r.y <= I32_MAX
  }

  /** The ray buffer is always at least as large as the current resolution. */
  ghost predicate Provisioned(g: Gpu) {
    ResOk(g.data.resolution) && Area(g.data.buffer_res) >= Area(g.data.resolution)
  }

  lemma InitialProvisioned()
    ensures Provisioned(InitialGpu) && HandlesIssued(InitialGpu)
  {
  }

  // ------------------------------------------------------------ random directions

  /** The loop counters of one iteration of the fill loop. */
  datatype Cell = Cell(x: int, y: int, z: int)

  /** The slot the row-major layout assigns to direction z of pixel (x, y). */
  function Slot(c: Cell, height: int): int {
    (c.x * height + c.y) * 4 + c.z
  }

  /** Every recorded write was made for counters within the bounds, at the slot the layout assigns them. */
  ghost predicate CellsLaidOut(cells: seq<Cell>, width: int, height: int) {
    forall i :: 0 <= i < |cells| ==>
      0 <= cells[i].x < width && 0 <= cells[i].y < height && 0 <= cells[i].z < 4 && i == Slot(cells[i], height)
  }

  /**
   * The fill loop of `generateRandomUnitVectors`: x over the width, y over the
   * height, z over four directions per pixel, writing through an `unsigned`
   * index that is incremented after every write. `writes[i]` is the slot of
   * the i-th write and `cells[i]` the counters it was made for.
   */
  method FillOrder(width: nat, height: nat) returns (writes: seq<U32>, cells: seq<Cell>)
    ensures |writes| == |cells| == width * height * 4
    ensures forall i :: 0 <= i < |writes| ==> writes[i] == ToU32(i)
    ensures forall i :: 0 <= i < |cells| ==>
              && 0 <= cells[i].x < width && 0 <= cells[i].y < height && 0 <= cells[i].z < 4
              && i == (cells[i].x * height + cells[i].y) * 4 + cells[i].z
  {
    writes, cells := [], [];
    var index: U32 := 0;
    var x := 0;
    while x < width
      invariant 0 <= x <= width
      invariant |writes| == |cells| == x * height * 4
      invariant index == ToU32(|writes|)
      invariant forall i :: 0 <= i < |writes| ==> writes[i] == ToU32(i)
      invariant CellsLaidOut(cells, x, height)
    {
      var y := 0;
      while y < height
        invariant 0 <= y <= height
        invariant |writes| == |cells| == (x * height + y) * 4
        invariant index == ToU32(|writes|)
        invariant forall i :: 0 <= i < |writes| ==> writes[i] == ToU32(i)
        invariant CellsLaidOut(cells, x + 1, height)
      {
        var z := 0;
        while z < 4
          invariant 0 <= z <= 4
          invariant |writes| == |cells| == (x * height + y) * 4 + z
          invariant index == ToU32(|writes|)
          invariant forall i :: 0 <= i < |writes| ==> writes[i] == ToU32(i)
          invariant CellsLaidOut(cells, x + 1, height)
        {
          IncToU32(|writes|);
          writes := writes + [index];
          cells := cells + [Cell(x, y, z)];
          index := IncU32(index);
          z := z + 1;
        }
        y := y + 1;
      }
      assert (x * height + height) * 4 == (x + 1) * height * 4;
      x := x + 1;
    }
  }

  /** Incrementing a wrapped counter is wrapping the incremented count. */
  lemma IncToU32(i: nat)
    ensures IncU32(ToU32(i)) == ToU32(i + 1)
  {
  }

  /**
   * While the pixel count times four fits the counter, the fill loop writes
   * pairwise distinct slots, all below the number of writes.
   */
  lemma FillSlotsDistinct(writes: seq<U32>)
    requires |writes| <= U32_LIMIT
    requires forall i :: 0 <= i < |writes| ==> writes[i] == ToU32(i)
    ensures forall i, j :: 0 <= i < j < |writes| ==> writes[i] != writes[j]
    ensures forall i :: 0 <= i < |writes| ==> writes[i] < |writes|
  {
  }

  /**
   * `generateRandomUnitVectors`: a buffer for four directions per pixel is
   * (re)created only when that exceeds the capacity so far; the directions
   * are written only while the mapping is valid.
   */
  function GenerateRandomUnitVectors(g: Gpu): (r: Gpu)
    requires ResOk(g.data.resolution)
    ensures r.data == g.data && r.rayBuffer == g.rayBuffer && r.hasRand == g.hasRand && r.firstTime == g.firstTime
    ensures r.modelBuffer == g.modelBuffer
    ensures r.random.size == if 4 * Area(g.data.resolution) > g.random.size then 4 * Area(g.data.resolution) else g.random.size
    ensures 4 * Area(g.data.resolution) > g.random.size ==>
              && r.random.mapped && r.random.name != 0 && !Issued(g.gl, r.random.name)
              && BufferCreated(r.random.name, 4 * Area(g.data.resolution)) in r.gl.log
    ensures 4 * Area(g.data.resolution) <= g.random.size ==> r.random == g.random
    ensures r.random.mapped <==> g.random.mapped || 4 * Area(g.data.resolution) > g.random.size
    // the fill writes one direction per slot up to four per pixel, all within capacity
    ensures r.random.mapped ==> |r.gl.log| > 0 && r.gl.log[|r.gl.log| - 1] == RandomFilled(r.random.name, 4 * Area(g.data.resolution))
    ensures r.random.mapped ==> 4 * Area(g.data.resolution) <= r.random.size
    ensures !r.random.mapped ==> r.gl == g.gl
    ensures g.gl.log <= r.gl.log && g.gl.lastName <= r.gl.lastName
    ensures HandlesIssued(g) ==> HandlesIssued(r)
  {
    var need := 4 * Area(g.data.resolution);
    var (rnd, gl1) :=
      if need > g.random.size then
        var (name, gl') := CreateBuffer(g.gl.(log := g.gl.log + [BufferDeleted(g.random.name)]), need);
        (RandomBuffer(name, need, true), gl')
      else (g.random, g.gl);
    if !rnd.mapped then g.(random := rnd, gl := gl1)
    else g.(random := rnd, gl := gl1.(log := gl1.log + [RandomFilled(rnd.name, need)]))
  }

  /** The random-direction capacity never shrinks. */
  lemma RandomCapacityGrows(g: Gpu)
    requires ResOk(g.data.resolution)
    ensures GenerateRandomUnitVectors(g).random.size >= g.random.size
    ensures GenerateRandomUnitVectors(g).random.size >= 4 * Area(g.data.resolution)
  {
  }

  // ------------------------------------------------------------ adaptResolution

  /** The preview target's height. */
  const PreviewTargetHeight: int := 180

  /**
   * `(int)(180.0 / y * x)`: the preview target's width, keeping the aspect
   * ratio. A zero height divides by zero and a width beyond `int` does not
   * convert: both are undefined.
   */
  function PreviewTargetWidth(r: Res): (w: Result<int, Fault>)
    requires ResOk(r)
    ensures w.Ok? <==> r.y > 0 && (PreviewTargetHeight * r.x) / r.y <= I32_MAX
    ensures w.Err? ==> w.error == Undefined
    ensures w.Ok? ==> 0 <= w.value && w.value * r.y <= PreviewTargetHeight * r.x < (w.value + 1) * r.y
  {
    if r.y == 0 then Err(Undefined)
    else
      var w := (PreviewTargetHeight * r.x) / r.y;
      if w > I32_MAX then Err(Undefined) else Ok(w)
  }

  /** Both render targets deleted and created afresh for resolution `r`. */
  function RecreateTargets(g: Gpu, r: Res, lowWidth: int): (h: Gpu)
    ensures h.data == g.data.(renderTarget := h.data.renderTarget, renderTargetLow := h.data.renderTargetLow)
    ensures h == g.(data := h.data, gl := h.gl)
    ensures h.data.renderTarget != 0 && !Issued(g.gl, h.data.renderTarget)
    ensures h.data.renderTargetLow != 0 && !Issued(g.gl, h.data.renderTargetLow)
    ensures h.data.renderTarget != h.data.renderTargetLow
    ensures Issued(h.gl, h.data.renderTarget) && Issued(h.gl, h.data.renderTargetLow)
    ensures TextureCreated(h.data.renderTarget, r.x, r.y) in h.gl.log
    ensures TextureCreated(h.data.renderTargetLow, lowWidth, PreviewTargetHeight) in h.gl.log
    ensures g.gl.log <= h.gl.log && g.gl.lastName <= h.gl.lastName
  {
    var gl0 := g.gl.(log := g.gl.log + [TextureDeleted(g.data.renderTarget), TextureDeleted(g.data.renderTargetLow)]);
    var (full, gl1) := CreateTexture(gl0, r.x, r.y);
    var (low, gl2) := CreateTexture(gl1, lowWidth, PreviewTargetHeight);
    g.(data := g.data.(renderTarget := full, renderTargetLow := low), gl := gl2)
  }

  /** The ray buffer deleted and created afresh with one record per pixel of `r`. */
  function RegrowRayBuffer(g: Gpu, r: Res): (h: Gpu)
    ensures h == g.(data := g.data.(buffer_res := r), gl := h.gl, rayBuffer := h.rayBuffer)
    ensures h.rayBuffer != 0 && !Issued(g.gl, h.rayBuffer) && Issued(h.gl, h.rayBuffer)
    ensures BufferCreated(h.rayBuffer, Area(r)) in h.gl.log
    ensures g.gl.log <= h.gl.log && g.gl.lastName <= h.gl.lastName
  {
    var (ray, gl1) := CreateBuffer(g.gl.(log := g.gl.log + [BufferDeleted(g.rayBuffer)]), Area(r));
    g.(data := g.data.(buffer_res := r), gl := gl1, rayBuffer := ray)
  }

  /**
   * The resolution changed to a different pixel count: both render targets
   * are recreated, the preview one `lowWidth` wide, and the ray buffer is
   * regrown if it no longer holds one record per pixel.
   */
  function Reallocate(g: Gpu, newRes: Res, lowWidth: int): (h: Gpu)
    requires Provisioned(g) && ResOk(newRes)
    ensures h.data.resolution == newRes && Provisioned(h)
    ensures h.data.initialized == g.data.initialized && h.data.triangles == g.data.triangles
    ensures h.random == g.random && h.hasRand == g.hasRand && h.firstTime == g.firstTime
    ensures HandlesIssued(g) ==> HandlesIssued(h)
    ensures g.gl.log <= h.gl.log && g.gl.lastName <= h.gl.lastName
    ensures && !Issued(g.gl, h.data.renderTarget) && !Issued(g.gl, h.data.renderTargetLow)
            && TextureCreated(h.data.renderTarget, newRes.x, newRes.y) in h.gl.log
            && TextureCreated(h.data.renderTargetLow, lowWidth, PreviewTargetHeight) in h.gl.log
    ensures if Area(newRes) > Area(g.data.buffer_res) then
              && h.data.buffer_res == newRes
              && !Issued(g.gl, h.rayBuffer)
              && BufferCreated(h.rayBuffer, Area(newRes)) in h.gl.log
            else
              h.data.buffer_res == g.data.buffer_res && h.rayBuffer == g.rayBuffer
  {
    var t := RecreateTargets(g.(data := g.data.(resolution := newRes)), newRes, lowWidth);
    if Area(newRes) > Area(g.data.buffer_res) then RegrowRayBuffer(t, newRes) else t
  }

  /**
   * The resizing half of `adaptResolution`: store the new resolution, and
   * when the pixel count changes recreate both render targets and regrow the
   * ray buffer if it is now too small.
   */
  function ResizeTargets(g: Gpu, newRes: Res): (r: Result<Gpu, Fault>)
    requires Provisioned(g) && ResOk(newRes)
    ensures r.Ok? <==> Area(newRes) == Area(g.data.resolution) || PreviewTargetWidth(newRes).Ok?
    ensures r.Err? ==> r.error == Undefined
    ensures r.Ok? ==> r.value.data.resolution == newRes && Provisioned(r.value)
    ensures r.Ok? ==> r.value.data.initialized == g.data.initialized && r.value.data.triangles == g.data.triangles
    ensures r.Ok? ==> r.value.random == g.random && r.value.hasRand == g.hasRand && r.value.firstTime == g.firstTime
    ensures r.Ok? && HandlesIssued(g) ==> HandlesIssued(r.value)
    ensures r.Ok? ==> g.gl.log <= r.value.gl.log && g.gl.lastName <= r.value.gl.lastName
    ensures r.Ok? && Area(newRes) == Area(g.data.resolution) ==>
              r.value.data.renderTarget == g.data.renderTarget && r.value.data.renderTargetLow == g.data.renderTargetLow
    ensures r.Ok? && Area(newRes) != Area(g.data.resolution) ==>
              && !Issued(g.gl, r.value.data.renderTarget) && !Issued(g.gl, r.value.data.renderTargetLow)
              && TextureCreated(r.value.data.renderTarget, newRes.x, newRes.y) in r.value.gl.log
              && TextureCreated(r.value.data.renderTargetLow, PreviewTargetWidth(newRes).value, PreviewTargetHeight) in r.value.gl.log
    ensures r.Ok? ==>
              if Area(newRes) != Area(g.data.resolution) && Area(newRes) > Area(g.data.buffer_res) then
                && r.value.data.buffer_res == newRes
                && !Issued(g.gl, r.value.rayBuffer)
                && BufferCreated(r.value.rayBuffer, Area(newRes)) in r.value.gl.log
              else
                r.value.data.buffer_res == g.data.buffer_res && r.value.rayBuffer == g.rayBuffer
  {
    if Area(newRes) == Area(g.data.resolution) then Ok(g.(data := g.data.(resolution := newRes)))
    else
      var lowWidth :- PreviewTargetWidth(newRes);
      Ok(Reallocate(g, newRes, lowWidth))
  }

  /**
   * `adaptResolution`. The new resolution is always stored. Both render
   * targets are recreated exactly when the pixel count changes, and the ray
   * buffer is regrown only when the pixel count changes to more than it
   * holds. The very first call also generates the random directions.
   */
  function AdaptResolution(g: Gpu, newRes: Res): (r: Result<Gpu, Fault>)
    requires Provisioned(g) && ResOk(newRes)
    ensures r.Ok? <==> Area(newRes) == Area(g.data.resolution) || PreviewTargetWidth(newRes).Ok?
    ensures r.Err? ==> r.error == Undefined
    ensures r.Ok? ==> r.value.data.resolution == newRes && Provisioned(r.value)
    ensures r.Ok? ==> r.value.data.initialized == g.data.initialized && r.value.data.triangles == g.data.triangles
    ensures r.Ok? && HandlesIssued(g) ==> HandlesIssued(r.value)
    ensures r.Ok? ==> g.gl.log <= r.value.gl.log
    // render targets follow the pixel count
    ensures r.Ok? && Area(newRes) == Area(g.data.resolution) ==>
              r.value.data.renderTarget == g.data.renderTarget && r.value.data.renderTargetLow == g.data.renderTargetLow
    ensures r.Ok? && Area(newRes) != Area(g.data.resolution) ==>
              && !Issued(g.gl, r.value.data.renderTarget) && !Issued(g.gl, r.value.data.renderTargetLow)
              && TextureCreated(r.value.data.renderTarget, newRes.x, newRes.y) in r.value.gl.log
              && TextureCreated(r.value.data.renderTargetLow, PreviewTargetWidth(newRes).value, PreviewTargetHeight) in r.value.gl.log
    // the ray buffer is a high-water mark
    ensures r.Ok? ==>
              if Area(newRes) != Area(g.data.resolution) && Area(newRes) > Area(g.data.buffer_res) then
                && r.value.data.buffer_res == newRes
                && !Issued(g.gl, r.value.rayBuffer)
                && BufferCreated(r.value.rayBuffer, Area(newRes)) in r.value.gl.log
              else
                r.value.data.buffer_res == g.data.buffer_res && r.value.rayBuffer == g.rayBuffer
    // the first call, and only the first, generates random directions
    ensures r.Ok? ==> r.value.hasRand
    ensures r.Ok? && g.hasRand ==> r.value.random == g.random
    ensures r.Ok? && !g.hasRand ==> r.value.random.size >= 4 * Area(newRes) && r.value.random.size >= g.random.size
  {
    var g2 :- ResizeTargets(g, newRes);
    if g2.hasRand then Ok(g2)
    else Ok(GenerateRandomUnitVectors(g2.(hasRand := true)))
  }

  /** Whether two states hold the same render targets. */
  predicate SameTargets(a: Gpu, b: Gpu) {
    a.data.renderTarget == b.data.renderTarget && a.data.renderTargetLow == b.data.renderTargetLow
  }

  /**
   * 800x600 followed by 640x750 recreates nothing (the same 480000 pixels),
   * while 800x601 afterwards recreates both targets.
   */
  lemma SamePixelCountKeepsTargets(g: Gpu)
    requires Provisioned(g) && HandlesIssued(g)
    ensures var a := AdaptResolution(g, Res(800, 600));
            a.Ok? ==>
              var b := AdaptResolution(a.value, Res(640, 750));
              && b.Ok? && SameTargets(a.value, b.value) && b.value.data.resolution == Res(640, 750)
              && var c := AdaptResolution(b.value, Res(800, 601));
                 c.Ok? && !Issued(b.value.gl, c.value.data.renderTarget) && !Issued(b.value.gl, c.value.data.renderTargetLow)
  {
    var a := AdaptResolution(g, Res(800, 600));
    if a.Ok? {
      var b := AdaptResolution(a.value, Res(640, 750));
      assert PreviewTargetWidth(Res(800, 601)).Ok?;
    }
  }

  /**
   * From the initial state the first call with a positive area provisions
   * everything: both targets, a ray buffer of one record per pixel, and four
   * random directions per pixel.
   */
  lemma FirstAdaptProvisions(newRes: Res)
    requires ResOk(newRes) && newRes.x > 0 && newRes.y > 0
    requires PreviewTargetWidth(newRes).Ok?
    ensures var r := AdaptResolution(InitialGpu, newRes);
            && r.Ok?
            && r.value.data.renderTarget != 0 && r.value.data.renderTargetLow != 0
            && r.value.rayBuffer != 0 && r.value.data.buffer_res == newRes
            && r.value.random.mapped && r.value.random.size == 4 * Area(newRes)
  {
    var g2 := FirstResize(newRes);
    var g3 := GenerateRandomUnitVectors(g2.(hasRand := true));
    assert AdaptResolution(InitialGpu, newRes) == Ok(g3);
  }

  /** From the initial state, resizing to a non-empty frame allocates both targets and the ray buffer. */
  lemma FirstResize(newRes: Res) returns (g2: Gpu)
    requires ResOk(newRes) && newRes.x > 0 && newRes.y > 0
    requires PreviewTargetWidth(newRes).Ok?
    ensures ResizeTargets(InitialGpu, newRes) == Ok(g2)
    ensures g2.data.resolution == newRes && g2.data.buffer_res == newRes && !g2.hasRand && g2.random == InitialRandom
    ensures g2.data.renderTarget != 0 && g2.data.renderTargetLow != 0 && g2.rayBuffer != 0
  {
    assert Area(newRes) > 0;
    g2 := ResizeTargets(InitialGpu, newRes).value;
  }

}
