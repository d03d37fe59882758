/**
 * The progressive-sample controller of RayTracer.cpp: one iteration of the
 * `mainLoop` while-loop as a step function over the loop's state (the static
 * `sample` counter and `lastMoving`), and the sample loop of `finalRender`.
 * Camera motion, timing and window calls are left out; what remains is which
 * scene calls a frame makes and with which sample.
 */
module Controller {
  import opened Words

  datatype Key = W | S | A | D | Space | C

  /**
   * What one frame polls: the right and middle mouse buttons, whether the
   * cursor moved since the last frame (a non-zero squared delta), the held
   * movement keys, Left-Alt and F2.
   */
  datatype Input = Input(right: bool, middle: bool, mouseMoved: bool, keys: set<Key>, alt: bool, f2: bool)

  datatype Action =
    | Trace(moving: bool, sample: U32)   // scene.render(WIDTH, HEIGHT, moving, camera, sample)
    | Raster                             // scene.forwardRender
    | Wireframe                          // scene.renderWireframe
    | Display(sample: U32)               // scene.display(sample)
    | ExportRaw                          // scene.exportRAW of the final image

  /** The loop's state: the static `sample` counter and `lastMoving`. */
  datatype Loop = Loop(sample: U32, lastMoving: bool)

  const InitialLoop: Loop := Loop(0, true)

  datatype Step = Step(next: Loop, actions: seq<Action>)

  /** The number of samples `finalRender` accumulates up to. */
  const FinalSamples: int := 127

  /** The static renders `finalRender` issues from sample s: `render(..., ++sample)` while `sample < 127`. */
  function FinalTraces(s: U32): seq<Action>
    decreases FinalSamples - s
  {
    if s < FinalSamples then [Trace(false, s + 1)] + FinalTraces(s + 1) else []
  }

  /** `finalRender`: the sample loop, then one display of the result and its export. */
  function FinalRender(s: U32): (r: Step)
    ensures r.next.sample == if s < FinalSamples then FinalSamples else s
    ensures r.actions == FinalTraces(s) + [Display(r.next.sample), ExportRaw]
    ensures |FinalTraces(s)| == if s < FinalSamples then FinalSamples - s else 0
    ensures forall i :: 0 <= i < |FinalTraces(s)| ==> FinalTraces(s)[i] == Trace(false, s + 1 + i)
  {
    FinalTracesIndex(s);
    var last: U32 := if s < FinalSamples then FinalSamples else s;
    Step(Loop(last, false), FinalTraces(s) + [Display(last), ExportRaw])
  }

  /** The final renders use the samples s+1, ..., 127 in this order. */
  lemma {:induction false} FinalTracesIndex(s: U32)
    ensures |FinalTraces(s)| == if s < FinalSamples then FinalSamples - s else 0
    ensures forall i :: 0 <= i < |FinalTraces(s)| ==> FinalTraces(s)[i] == Trace(false, s + 1 + i)
    decreases FinalSamples - s
  {
    if s < FinalSamples {
      FinalTracesIndex(s + 1);
    }
  }

  /** Whether any camera key is held: each one moves the camera. */
  predicate KeyMoving(inp: Input) {
    inp.keys != {}
  }

  /**
   * One iteration of the loop up to the F2 check. A drag with the right or
   * middle button, or any camera key, resets the sample counter; a change of
   * mode resets it too. A frame renders only while moving or on a change of
   * mode: the first static frame traces sample 0, the middle button traces a
   * preview at the current sample and advances it, and other movement draws
   * the raster view.
   */
  function ModeStep(l: Loop, inp: Input): (r: Step)
    // `lastMoving` tracks this frame's mode
    ensures r.next.lastMoving == (inp.right || inp.middle || KeyMoving(inp))
    // a frame that renders ends with a display of the counter as it then stands
    ensures inp.right || inp.middle || KeyMoving(inp) || l.lastMoving ==>
              |r.actions| >= 2 && r.actions[|r.actions| - 1] == Display(r.next.sample)
    // a static frame without a change of mode does nothing at all
    ensures !inp.right && !inp.middle && !KeyMoving(inp) && !l.lastMoving ==> r == Step(l, [])
    // moving to static: one static trace at sample 0, after which the counter is 1
    ensures !inp.right && !inp.middle && !KeyMoving(inp) && l.lastMoving ==>
              r.actions[0] == Trace(false, 0) && r.next.sample == 1
    // dragging with a button held, or any camera key, restarts the count
    ensures ((inp.right || inp.middle) && inp.mouseMoved) || KeyMoving(inp) ==>
              && r.next.sample == (if inp.middle then 1 else 0)
              && r.actions[0] == (if inp.middle then Trace(true, 0) else Raster)
    // a change from static to moving restarts the count as well, drag or not
    ensures !l.lastMoving && (inp.right || inp.middle || KeyMoving(inp)) ==>
              && r.next.sample == (if inp.middle then 1 else 0)
              && r.actions[0] == (if inp.middle then Trace(true, 0) else Raster)
    // the middle button held still after a moving frame traces a preview at the
    // current sample and advances the counter by one (wrapping)
    ensures inp.middle && !inp.mouseMoved && !KeyMoving(inp) && l.lastMoving ==>
              r.actions[0] == Trace(true, l.sample) && r.next.sample == IncU32(l.sample)
    // the right button alone, held still, takes the raster path and keeps the counter
    ensures inp.right && !inp.middle && !inp.mouseMoved && !KeyMoving(inp) && l.lastMoving ==>
              r == Step(Loop(l.sample, true), [Raster] + (if inp.alt then [Wireframe] else []) + [Display(l.sample)])
  {
    var buttons := inp.right || inp.middle;
    var s0: U32 := if buttons && inp.mouseMoved then 0 else l.sample;
    var moving := buttons || KeyMoving(inp);
    var s1: U32 := if KeyMoving(inp) then 0 else s0;
    if moving || l.lastMoving != moving then
      var s: U32 := if l.lastMoving != moving then 0 else s1;
      var (s', a) :=
        if !moving then (1, [Trace(false, 0)])
        else if inp.middle then (IncU32(s), [Trace(true, s)])
        else (s, [Raster]);
      Step(Loop(s', moving), a + (if inp.alt then [Wireframe] else []) + [Display(s')])
    else Step(Loop(s1, moving), [])
  }

  /** One whole iteration of the loop: the mode step, then the final render if F2 is held. */
  function Frame(l: Loop, inp: Input): (r: Step)
    ensures !inp.f2 ==> r == ModeStep(l, inp)
    ensures inp.f2 ==>
              var m := ModeStep(l, inp);
              && r.actions == m.actions + FinalRender(m.next.sample).actions
              && r.next == Loop(FinalRender(m.next.sample).next.sample, m.next.lastMoving)
              && r.next.sample >= FinalSamples
  {
    var m := ModeStep(l, inp);
    if inp.f2 then
      var fin := FinalRender(m.next.sample);
      Step(Loop(fin.next.sample, m.next.lastMoving), m.actions + fin.actions)
    else m
  }

  /** A run of frames: the state after them and every call they made, in order. */
  function Frames(l: Loop, inputs: seq<Input>): Step
    decreases |inputs|
  {
    if |inputs| == 0 then Step(l, [])
    else
      var first := Frame(l, inputs[0]);
      var rest := Frames(first.next, inputs[1..]);
      Step(rest.next, first.actions + rest.actions)
  }

  /** The middle button held with the cursor and keys still. */
  const HoldMiddle: Input := Input(false, true, false, {}, false, false)

  /** No button, no key: the camera at rest. */
  const AtRest: Input := Input(false, false, false, {}, false, false)

  /** n frames of holding the middle button still. */
  function Holding(n: nat): (r: seq<Input>)
    ensures |r| == n && forall i :: 0 <= i < n ==> r[i] == HoldMiddle
  {
    seq(n, _ => HoldMiddle)
  }

  /**
   * What n held frames from l do: the counter ends n further on (modulo
   * 2^32), each frame makes two calls, and frame i traces sample l.sample + i.
   */
  predicate Accumulated(l: Loop, n: nat) {
    Counted(l.sample, Frames(l, Holding(n)), n)
  }

  /** A run r of n held frames that began at counter s. */
  predicate Counted(s: U32, r: Step, n: nat) {
    && r.next == Loop(ToU32(s + n), true)
    && |r.actions| == 2 * n
    && forall i :: 0 <= i < n ==> r.actions[2 * i] == Trace(true, ToU32(s + i))
  }

  /**
   * Progressive preview: n frames of holding the middle button still, after a
   * moving frame, advance the counter by exactly n (modulo 2^32) and trace
   * the samples in order.
   */
  lemma {:induction false} PreviewAccumulates(l: Loop, n: nat)
    requires l.lastMoving
    ensures Accumulated(l, n)
    decreases n
  {
    if n == 0 {
      NoFrames(l);
    } else {
      var next := Loop(IncU32(l.sample), true);
      PreviewAccumulates(next, n - 1);
      HoldingCons(l, n);
      PreviewStep(l.sample, Frames(next, Holding(n - 1)), Frames(l, Holding(n)), n);
    }
  }

  /** Zero frames: nothing happens. */
  lemma NoFrames(l: Loop)
    requires l.lastMoving
    ensures Accumulated(l, 0)
  {
    assert Frames(l, Holding(0)) == Step(l, []);
    assert ToU32(l.sample + 0) == l.sample;
  }

  /** One held frame at s, then n - 1 frames counted from s + 1, are n frames counted from s. */
  lemma PreviewStep(s: U32, rest: Step, whole: Step, n: nat)
    requires n > 0 && Counted(IncU32(s), rest, n - 1)
    requires whole == Step(rest.next, [Trace(true, s), Display(IncU32(s))] + rest.actions)
    ensures Counted(s, whole, n)
  {
    ShiftU32(s, n);
    PrependTrace(s, [Trace(true, s), Display(IncU32(s))], rest.actions, n);
  }

  /** Holding for n frames is one held frame, which traces and advances the counter, then n - 1 more. */
  lemma HoldingCons(l: Loop, n: nat)
    requires l.lastMoving && n > 0
    ensures var rest := Frames(Loop(IncU32(l.sample), true), Holding(n - 1));
            Frames(l, Holding(n)) == Step(rest.next, [Trace(true, l.sample), Display(IncU32(l.sample))] + rest.actions)
  {
    assert Holding(n)[1..] == Holding(n - 1);
    FramesCons(l, Holding(n));
    HoldMiddleFrame(l);
  }

  /** The traces of the later frames, counted from s + 1, follow the first frame's trace at s. */
  lemma PrependTrace(s: U32, first: seq<Action>, rest: seq<Action>, n: nat)
    requires n > 0 && |first| == 2 && first[0] == Trace(true, s) && |rest| == 2 * (n - 1)
    requires forall i :: 0 <= i < n - 1 ==> rest[2 * i] == Trace(true, ToU32(IncU32(s) + i))
    ensures forall i :: 0 <= i < n ==> (first + rest)[2 * i] == Trace(true, ToU32(s + i))
  {
    forall i | 1 <= i < n
      ensures (first + rest)[2 * i] == Trace(true, ToU32(s + i))
    {
      assert (first + rest)[2 * i] == rest[2 * (i - 1)];
      ShiftU32(s, i);
    }
  }

  /** A run of frames is its first frame followed by the rest. */
  lemma FramesCons(l: Loop, inputs: seq<Input>)
    requires |inputs| > 0
    ensures var first := Frame(l, inputs[0]);
            var rest := Frames(first.next, inputs[1..]);
            Frames(l, inputs) == Step(rest.next, first.actions + rest.actions)
  {
  }

  /** One frame of holding the middle button still after a moving frame. */
  lemma HoldMiddleFrame(l: Loop)
    requires l.lastMoving
    ensures Frame(l, HoldMiddle) == Step(Loop(IncU32(l.sample), true), [Trace(true, l.sample), Display(IncU32(l.sample))])
  {
  }

  /** Counting on from the successor: (s + 1) + (n - 1) wraps to the same word as s + n. */
  lemma ShiftU32(s: U32, n: nat)
    requires n > 0
    ensures ToU32(IncU32(s) + (n - 1)) == ToU32(s + n)
  {
  }

  /**
   * No accumulation at rest: however many frames the camera stays at rest
   * after moving, exactly one static trace runs (at sample 0) and the
   * counter stays at 1.
   */
  lemma {:induction false} RestTracesOnce(l: Loop, n: nat)
    requires n > 0
    ensures var r := Frames(l, seq(n, _ => AtRest));
            && r.next == (if l.lastMoving then Loop(1, false) else l)
            && (l.lastMoving ==> r.actions == [Trace(false, 0), Display(1)])
            && (!l.lastMoving ==> r.actions == [])
    decreases n
  {
    var inputs := seq(n, _ => AtRest);
    var first := Frame(l, AtRest);
    assert inputs[1..] == seq(n - 1, _ => AtRest);
    if n > 1 {
      RestTracesOnce(first.next, n - 1);
    }
  }
}
