/**
 * The fallback of the Grease Pencil Interpolate operator that the add-on
 * overrides: with the AI type it hands over to the AI tween; otherwise it
 * creates the in-between frames after the current one on the active layer.
 * Point coordinates, pressure and strength are floating-point blends and are
 * not modelled; a new point records which two points it blends and at which
 * parameter, or that it was left at its default.
 */
module GPInterpolate {
  import opened Wrappers
  import opened Scene

  /** The operator's `type` property. */
  datatype InterpolationType = Linear | Bezier | Sine | Quad | Cubic | Quart | Quint | AI

  /** A point of a stroke. */
  datatype Point =
    | Drawn(id: nat)                            // a point that was drawn, as found on the layer
    | Unset                                     // added by `points.add` and never assigned
    | Blend(stroke: nat, point: nat, t: real)   // blend of point `point` of stroke `stroke` of the two frames at `t`

  datatype Stroke = Stroke(points: seq<Point>)

  datatype Frame = Frame(number: int, strokes: seq<Stroke>)

  /** A Grease Pencil layer; its list of frames grows as frames are created. */
  class Layer {
    var frames: seq<Frame>

    constructor (frames: seq<Frame>)
      ensures this.frames == frames
    {
      this.frames := frames;
    }
  }

  function Min(a: nat, b: nat): (m: nat)
    ensures m <= a && m <= b && (m == a || m == b)
  {
    if a <= b then a else b
  }

  // ---------------------------------------------------------------------
  // Choosing the two frames
  // ---------------------------------------------------------------------

  /** The index of the last frame numbered `n`: the loop over the frames keeps the last match. */
  function LastNumbered(frames: seq<Frame>, n: int): (r: Option<nat>)
    ensures r.Some? ==> r.value < |frames| && frames[r.value].number == n
                        && forall k | r.value < k < |frames| :: frames[k].number != n
    ensures r.None? <==> forall k | 0 <= k < |frames| :: frames[k].number != n
  {
    if |frames| == 0 then None
    else if frames[|frames| - 1].number == n then Some(|frames| - 1)
    else LastNumbered(frames[..|frames| - 1], n)
  }

  /** Lines 533-540: one pass over the frames, remembering the last frame of each number. */
  method SelectFrames(frames: seq<Frame>, current: int) returns (cur: Option<nat>, next: Option<nat>)
    ensures cur == LastNumbered(frames, current) && next == LastNumbered(frames, current + 1)
  {
    cur, next := None, None;
    var k := 0;
    while k < |frames|
      invariant k <= |frames|
      invariant cur == LastNumbered(frames[..k], current)
      invariant next == LastNumbered(frames[..k], current + 1)
    {
      assert frames[..k + 1][..k] == frames[..k];
      if frames[k].number == current {
        cur := Some(k);
      } else if frames[k].number == current + 1 {
        next := Some(k);
      }
      k := k + 1;
    }
    assert frames[..k] == frames;
  }

  // ---------------------------------------------------------------------
  // The in-between frames
  // ---------------------------------------------------------------------

  /** The blend parameter of step `step` of `steps`: step / (steps + 1). */
  function StepT(step: nat, steps: nat): real {
    step as real / (steps + 1) as real
  }

  /**
   * The new stroke for stroke `i`: as many points as the current frame's
   * stroke, the first as many as the next frame's stroke has blended.
   */
  function TweenStroke(cs: Stroke, ns: Stroke, i: nat, t: real): Stroke {
    Stroke(seq(|cs.points|, j requires 0 <= j < |cs.points| => if j < |ns.points| then Blend(i, j, t) else Unset))
  }

  /** The new frame numbered `number`: one stroke for each stroke the two frames both have. */
  function TweenFrame(cf: Frame, nf: Frame, number: int, t: real): Frame {
    Frame(number, seq(Min(|cf.strokes|, |nf.strokes|), i requires 0 <= i < Min(|cf.strokes|, |nf.strokes|) =>
                        TweenStroke(cf.strokes[i], nf.strokes[i], i, t)))
  }

  /** All new frames, in the order they are created. */
  function Tweens(cf: Frame, nf: Frame, current: int, steps: nat): seq<Frame> {
    seq(steps, k requires 0 <= k < steps => TweenFrame(cf, nf, current + k + 1, StepT(k + 1, steps)))
  }

  /** Lines 549-552: `points.add(n)` on a new stroke, then assignment of the points both strokes have. */
  method BuildStroke(cs: Stroke, ns: Stroke, i: nat, t: real) returns (s: Stroke)
    ensures s == TweenStroke(cs, ns, i, t)
  {
    var points := seq(|cs.points|, _ => Unset);
    var j := 0;
    while j < |cs.points|
      invariant j <= |cs.points| && |points| == |cs.points|
      invariant forall q | 0 <= q < |points| :: points[q] == if q < j && q < |ns.points| then Blend(i, q, t) else Unset
    {
      if j < |ns.points| {
        points := points[j := Blend(i, j, t)];
      }
      j := j + 1;
    }
    s := Stroke(points);
  }

  /** Lines 546-549: a new stroke for each current stroke the next frame also has. */
  method BuildFrame(cf: Frame, nf: Frame, number: int, t: real) returns (f: Frame)
    ensures f == TweenFrame(cf, nf, number, t)
  {
    var strokes: seq<Stroke> := [];
    var i := 0;
    while i < |cf.strokes|
      invariant i <= |cf.strokes|
      invariant |strokes| == Min(i, |nf.strokes|)
      invariant forall q | 0 <= q < |strokes| :: strokes[q] == TweenStroke(cf.strokes[q], nf.strokes[q], q, t)
    {
      if i < |nf.strokes| {
        var s := BuildStroke(cf.strokes[i], nf.strokes[i], i, t);
        strokes := strokes + [s];
      }
      i := i + 1;
    }
    f := Frame(number, strokes);
  }

  /**
   * POSE_OT_GPInterpolate.execute (lines 522-561). `target` is the active
   * object's kind (None when there is none), `layer` the active layer (null
   * when there is none) and `current` the scene's frame. With the AI type the
   * operator only hands over to the AI tween; it reports FINISHED either way.
   */
  method InterpolateSequence(mode: InterpolationType, target: Option<ObjectKind>, layer: Layer?,
                             current: int, steps: nat) returns (delegated: bool)
    modifies layer
    ensures delegated <==> mode == AI
    ensures layer != null ==>
              var cur := LastNumbered(old(layer.frames), current);
              var next := LastNumbered(old(layer.frames), current + 1);
              if !delegated && target == Some(GreasePencil) && cur.Some? && next.Some? then
                layer.frames == old(layer.frames) + Tweens(old(layer.frames)[cur.value], old(layer.frames)[next.value], current, steps)
              else
                layer.frames == old(layer.frames)
  {
    if mode == AI {
      return true;
    }
    delegated := false;
    if target != Some(GreasePencil) || layer == null {
      return;
    }
    var cur, next := SelectFrames(layer.frames, current);
    if cur.None? || next.None? {
      return;
    }
    ghost var before := layer.frames;
    var cf, nf := layer.frames[cur.value], layer.frames[next.value];
    var step := 1;
    while step <= steps
      invariant 1 <= step <= steps + 1
      invariant layer.frames == before + Tweens(cf, nf, current, steps)[..step - 1]
    {
      var f := BuildFrame(cf, nf, current + step, StepT(step, steps));
      assert Tweens(cf, nf, current, steps)[..step] == Tweens(cf, nf, current, steps)[..step - 1] + [f];
      layer.frames := layer.frames + [f];
      step := step + 1;
    }
    assert Tweens(cf, nf, current, steps)[..steps] == Tweens(cf, nf, current, steps);
  }

  // ---------------------------------------------------------------------
  // Properties
  // ---------------------------------------------------------------------

  /** The blend parameter lies strictly between 0 and 1 and grows with the step. */
  lemma StepTBounds(step: nat, steps: nat)
    requires 1 <= step <= steps
    ensures 0.0 < StepT(step, steps) < 1.0
    ensures step < steps ==> StepT(step, steps) < StepT(step + 1, steps)
  {
    var d := (steps + 1) as real;
    assert StepT(step, steps) * d == step as real;
    if step < steps {
      assert StepT(step + 1, steps) * d == (step + 1) as real;
    }
  }

  /**
   * There are `steps` new frames numbered current + 1 to current + steps, one
   * after the other, each blending at a parameter strictly between 0 and 1.
   */
  lemma TweensNumbered(cf: Frame, nf: Frame, current: int, steps: nat)
    ensures var ts := Tweens(cf, nf, current, steps);
            && |ts| == steps
            && (forall k | 0 <= k < steps :: ts[k].number == current + k + 1)
            && (forall k, i, j | 0 <= k < steps && 0 <= i < |ts[k].strokes| && 0 <= j < |ts[k].strokes[i].points|
                  :: ts[k].strokes[i].points[j].Blend? ==> 0.0 < ts[k].strokes[i].points[j].t < 1.0)
  {
    var ts := Tweens(cf, nf, current, steps);
    forall k, i, j | 0 <= k < steps && 0 <= i < |ts[k].strokes| && 0 <= j < |ts[k].strokes[i].points|
      ensures ts[k].strokes[i].points[j].Blend? ==> 0.0 < ts[k].strokes[i].points[j].t < 1.0
    {
      StepTBounds(k + 1, steps);
    }
  }

  /**
   * The first new frame takes the number of the next frame, which exists
   * whenever frames are created. Blender's `frames.new` refuses a number
   * already in use, so in Blender this first call fails; that refusal is not
   * modelled.
   */
  lemma FirstTweenTakesNextNumber(frames: seq<Frame>, current: int, steps: nat)
    requires LastNumbered(frames, current).Some? && LastNumbered(frames, current + 1).Some? && steps >= 1
    ensures var nf := frames[LastNumbered(frames, current + 1).value];
            Tweens(frames[LastNumbered(frames, current).value], nf, current, steps)[0].number == nf.number
  {
  }

  /**
   * Each new frame has min(#current strokes, #next strokes) strokes; stroke i
   * has as many points as stroke i of the current frame; its point j blends
   * point j of both frames' strokes i exactly when the next frame's stroke has
   * a point j, and stays unset otherwise. So every blend reads points that exist.
   */
  lemma TweenFrameShape(cf: Frame, nf: Frame, number: int, t: real)
    ensures var f := TweenFrame(cf, nf, number, t);
            && f.number == number
            && |f.strokes| == Min(|cf.strokes|, |nf.strokes|)
            && (forall i | 0 <= i < |f.strokes| :: |f.strokes[i].points| == |cf.strokes[i].points|)
            && (forall i, j | 0 <= i < |f.strokes| && 0 <= j < |f.strokes[i].points| ::
                  (f.strokes[i].points[j] == Blend(i, j, t) <==> j < |nf.strokes[i].points|)
                  && (f.strokes[i].points[j].Unset? <==> j >= |nf.strokes[i].points|))
  {
  }

  /** The number of points of `points` that were assigned a blend. */
  function BlendCount(points: seq<Point>): nat {
    if |points| == 0 then 0
    else BlendCount(points[..|points| - 1]) + (if points[|points| - 1].Blend? then 1 else 0)
  }

  /** A new stroke has exactly min(#current points, #next points) blended points. */
  lemma {:induction false} TweenStrokeBlends(cs: Stroke, ns: Stroke, i: nat, t: real)
    ensures BlendCount(TweenStroke(cs, ns, i, t).points) == Min(|cs.points|, |ns.points|)
  {
    var n, m := |cs.points|, |ns.points|;
    assert TweenStroke(cs, ns, i, t).points == seq(n, j requires 0 <= j < n => if j < m then Blend(i, j, t) else Unset);
    BlendPrefixCount(n, m, i, t);
  }

  lemma {:induction false} BlendPrefixCount(n: nat, m: nat, i: nat, t: real)
    ensures BlendCount(seq(n, j requires 0 <= j < n => if j < m then Blend(i, j, t) else Unset)) == Min(n, m)
  {
    if n > 0 {
      var s := seq(n, j requires 0 <= j < n => if j < m then Blend(i, j, t) else Unset);
      assert s[..n - 1] == seq(n - 1, j requires 0 <= j < n - 1 => if j < m then Blend(i, j, t) else Unset);
      BlendPrefixCount(n - 1, m, i, t);
    }
  }
}
