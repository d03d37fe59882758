/**
 * The per-frame decisions of `Scene::render` and `Scene::traceScene`: which
 * target is written, at what size and recursion depth, when the random
 * directions are regenerated, which sample count the display pass receives,
 * and how many compute work groups are dispatched.
 */
module Render {
  import opened Words
  import opened Results
  import opened Device
  import opened Resolution

  /** The height every moving frame is traced at. */
  const PreviewTraceHeight: int := 240

  datatype Target = Full | Preview

  /** What one `render` call asks of the device, besides the state it changes. */
  datatype Pass = Pass(
    target: Target,
    width: int,
    height: int,
    recursion: int,
    regenerated: bool,
    groupsX: int,
    groupsY: int,
    sampleUniform: U32,    // SAMPLE of the ray tracer
    samplesUniform: U32)   // SAMPLES of the display pass

  /** `(int)ceil((float)n / 8.0f)`: the 8x8 work groups covering n pixels. */
  function Groups8(n: nat): (r: nat)
    ensures r * 8 >= n
    ensures r > 0 ==> (r - 1) * 8 < n
  {
    (n + 7) / 8
  }

  /**
   * `(int)(240.0 / height * width)`: the traced width of a moving frame. A
   * zero height divides by zero and a width beyond `int` does not convert.
   */
  function PreviewTraceWidth(width: nat, height: nat): (r: Result<nat, Fault>)
    ensures r.Ok? <==> height > 0 && (PreviewTraceHeight * width) / height <= I32_MAX
    ensures r.Err? ==> r.error == Undefined
    ensures r.Ok? ==> r.value * height <= PreviewTraceHeight * width < (r.value + 1) * height
  {
    if height == 0 then Err(Undefined)
    else
      var w := (PreviewTraceHeight * width) / height;
      if w > I32_MAX then Err(Undefined) else Ok(w)
  }

  /** The re-randomisation rule: static frames whose sample is a positive multiple of 4. */
  predicate Regenerates(moving: bool, sample: U32) {
    !moving && sample > 0 && sample % 4 == 0
  }

  /** The `firstTime` static of `render`: only the first call provisions for the frame size. */
  function FirstTime(g: Gpu, width: nat, height: nat): (r: Result<Gpu, Fault>)
    requires Provisioned(g) && ResOk(Res(width, height))
    ensures r.Ok? <==> (g.firstTime ==> AdaptResolution(g, Res(width, height)).Ok?)
    ensures r.Err? ==> r.error == Undefined
    ensures r.Ok? ==> Provisioned(r.value) && !r.value.firstTime
    ensures r.Ok? && HandlesIssued(g) ==> HandlesIssued(r.value)
    ensures r.Ok? && g.firstTime ==> r.value.data.resolution == Res(width, height)
    ensures r.Ok? && !g.firstTime ==> r.value == g
  {
    if g.firstTime then
      var g1 :- AdaptResolution(g, Res(width, height));
      Ok(g1.(firstTime := false))
    else Ok(g)
  }

  /** The traced size: the frame size when static, 240 rows at the same aspect ratio when moving. */
  function TraceSize(width: nat, height: nat, moving: bool): (r: Result<(nat, nat), Fault>)
    ensures r.Ok? <==> (moving ==> PreviewTraceWidth(width, height).Ok?)
    ensures r.Err? ==> r.error == Undefined
    ensures r.Ok? && moving ==> r.value == (PreviewTraceWidth(width, height).value, PreviewTraceHeight)
    ensures r.Ok? && !moving ==> r.value == (width, height)
  {
    if moving then
      var w :- PreviewTraceWidth(width, height);
      Ok((w, PreviewTraceHeight))
    else Ok((width, height))
  }

  /**
   * The pass a `render` call issues: a moving frame is traced at reduced size
   * into the preview target with recursion 4, a static one at full size into
   * the full target with recursion 12; the display pass is told `sample + 1`
   * samples (an `unsigned` sum).
   */
  function PlanPass(width: nat, height: nat, moving: bool, sample: U32): (r: Result<Pass, Fault>)
    ensures r.Ok? <==> (moving ==> PreviewTraceWidth(width, height).Ok?)
    ensures r.Err? ==> r.error == Undefined
    ensures r.Ok? ==>
              var p := r.value;
              && p.target == (if moving then Preview else Full)
              && p.recursion == (if moving then 4 else 12)
              && (moving ==> p.height == PreviewTraceHeight && p.width == PreviewTraceWidth(width, height).value)
              && (!moving ==> p.width == width && p.height == height)
              && (p.regenerated <==> !moving && sample > 0 && sample % 4 == 0)
              && p.sampleUniform == sample
              && p.samplesUniform == IncU32(sample)
              && p.groupsX * 8 >= p.width && (p.groupsX > 0 ==> (p.groupsX - 1) * 8 < p.width)
              && p.groupsY * 8 >= p.height && (p.groupsY > 0 ==> (p.groupsY - 1) * 8 < p.height)
  {
    var (tw, th) :- TraceSize(width, height, moving);
    Ok(Pass(if moving then Preview else Full, tw, th, if moving then 4 else 12, Regenerates(moving, sample),
            Groups8(tw), Groups8(th), sample, IncU32(sample)))
  }

  /** The device side of a planned pass: regenerate the random directions if due, then dispatch the ray tracer. */
  function TracePass(g: Gpu, pass: Pass): (r: Gpu)
    requires Provisioned(g)
    ensures Provisioned(r) && r.firstTime == g.firstTime
    ensures HandlesIssued(g) ==> HandlesIssued(r)
    ensures r.data == g.data && r.rayBuffer == g.rayBuffer
    ensures |r.gl.log| > 0 && r.gl.log[|r.gl.log| - 1] == Dispatched(RayTracer, pass.groupsX, pass.groupsY)
    ensures pass.regenerated ==> r.random.size >= 4 * Area(r.data.resolution)
    ensures !pass.regenerated ==> r.random == g.random
  {
    var g3 := if pass.regenerated then GenerateRandomUnitVectors(g) else g;
    g3.(gl := g3.gl.(log := g3.gl.log + [Dispatched(RayTracer, pass.groupsX, pass.groupsY)]))
  }

  /**
   * `render`. The first call provisions for the given size; the pass is
   * planned as above, the random directions are regenerated when it says
   * so, and the ray tracer is dispatched over the traced size.
   */
  function Render(g: Gpu, width: nat, height: nat, moving: bool, sample: U32): (r: Result<(Gpu, Pass), Fault>)
    requires Provisioned(g) && ResOk(Res(width, height))
    ensures r.Ok? <==> FirstTime(g, width, height).Ok? && PlanPass(width, height, moving, sample).Ok?
    ensures r.Err? ==> r.error == Undefined
    ensures r.Ok? ==> r.value.1 == PlanPass(width, height, moving, sample).value
    ensures r.Ok? ==> Provisioned(r.value.0) && !r.value.0.firstTime
    ensures r.Ok? && HandlesIssued(g) ==> HandlesIssued(r.value.0)
    // only the first call touches the resolution and the render targets
    ensures r.Ok? && g.firstTime ==> r.value.0.data.resolution == Res(width, height)
    ensures r.Ok? && !g.firstTime ==> r.value.0.data == g.data && r.value.0.rayBuffer == g.rayBuffer
    // the frame ends with the ray tracer dispatched over the traced size
    ensures r.Ok? ==>
              && |r.value.0.gl.log| > 0
              && r.value.0.gl.log[|r.value.0.gl.log| - 1] == Dispatched(RayTracer, r.value.1.groupsX, r.value.1.groupsY)
    // a regeneration leaves room for four directions per pixel; otherwise the buffer is kept
    ensures r.Ok? && r.value.1.regenerated ==>
              r.value.0.random.size >= 4 * Area(r.value.0.data.resolution)
    ensures r.Ok? && !r.value.1.regenerated && !g.firstTime ==> r.value.0.random == g.random
  {
    var g2 :- FirstTime(g, width, height);
    var pass :- PlanPass(width, height, moving, sample);
    Ok((TracePass(g2, pass), pass))
  }

  /**
   * The preview mismatch: every moving frame dispatches work groups over 240
   * rows, while the preview target it writes has only 180. When the frame
   * size is the provisioned resolution the traced width also covers at least
   * the preview target's width.
   */
  lemma PreviewOverrunsTarget(g: Gpu, width: nat, height: nat, sample: U32)
    requires Provisioned(g) && ResOk(Res(width, height))
    requires Render(g, width, height, true, sample).Ok?
    ensures var (g', p) := Render(g, width, height, true, sample).value;
            && p.target == Preview
            && p.groupsY * 8 == PreviewTraceHeight
            && p.groupsY * 8 - PreviewTargetHeight == 60
            && (g'.data.resolution == Res(width, height) && PreviewTargetWidth(Res(width, height)).Ok? ==>
                  p.width >= PreviewTargetWidth(Res(width, height)).value)
  {
    var (g', p) := Render(g, width, height, true, sample).value;
    if g'.data.resolution == Res(width, height) && PreviewTargetWidth(Res(width, height)).Ok? {
      var tw := PreviewTraceWidth(width, height).value;
      var lw := PreviewTargetWidth(Res(width, height)).value;
      assert lw * height <= PreviewTargetHeight * width <= PreviewTraceHeight * width < (tw + 1) * height;
      TimesLess(lw, tw + 1, height);
    }
  }

  lemma TimesLess(a: int, b: int, c: int)
    requires c > 0 && a * c < b * c
    ensures a < b
  {
  }

  /**
   * Over a run of static samples 1..n the random directions are regenerated
   * exactly at the multiples of 4: n / 4 times.
   */
  function Regenerations(n: nat): (r: nat)
    requires n < U32_LIMIT
    ensures r == n / 4
  {
    if n == 0 then 0 else Regenerations(n - 1) + (if Regenerates(false, n) then 1 else 0)
  }
}
