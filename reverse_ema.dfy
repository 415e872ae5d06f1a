/**
 * The reconstruction kernel: the algebraic inverse of the exponential moving
 * average that the tablet hardware applies to raw positions.
 */
module EmaKernel {
  import opened Vectors

  /**
   * One step of the hardware's smoothing: the new smoothed position is the
   * true position weighted by `w` plus the previous smoothed position
   * weighted by `1 - w`.
   */
  function ForwardEma(truePoint: Vec2, last: Vec2, w: real): Vec2 {
    truePoint.Scale(w).Plus(last.Scale(1.0 - w))
  }

  /** ReverseEMAFunc: `(current - last) / w + last` on both axes. */
  function ReverseEma(current: Vec2, last: Vec2, w: real): Vec2
    requires w != 0.0
  {
    current.Minus(last).Div(w).Plus(last)
  }

  /**
   * Reconstruction yields the true position that the forward step maps to
   * `current`: smoothing the reconstructed position reproduces the report.
   */
  lemma ReverseEmaUndoesSmoothing(current: Vec2, last: Vec2, w: real)
    requires w != 0.0
    ensures ForwardEma(ReverseEma(current, last, w), last, w) == current
  {
    var d := current.Minus(last);
    assert w * (d.x / w) == d.x && w * (d.y / w) == d.y;
  }

  /** A weight of 1 means no hardware smoothing: reconstruction is the identity. */
  lemma ReverseEmaAtFullWeight(current: Vec2, last: Vec2)
    ensures ReverseEma(current, last, 1.0) == current
  {
  }

  /** The forward step is one-to-one in the true position for every non-zero weight. */
  lemma ForwardEmaInjective(t1: Vec2, t2: Vec2, last: Vec2, w: real)
    requires w != 0.0
    requires ForwardEma(t1, last, w) == ForwardEma(t2, last, w)
    ensures t1 == t2
  {
    assert w * (t1.x - t2.x) == 0.0;
    assert w * (t1.y - t2.y) == 0.0;
  }

  /** Smoothing a true position and then reconstructing it gives it back. */
  lemma ReverseEmaInvertsForward(truePoint: Vec2, last: Vec2, w: real)
    requires w != 0.0
    ensures ReverseEma(ForwardEma(truePoint, last, w), last, w) == truePoint
  {
    var s := ForwardEma(truePoint, last, w);
    ReverseEmaUndoesSmoothing(s, last, w);
    ForwardEmaInjective(ReverseEma(s, last, w), truePoint, last, w);
  }

  /**
   * Reconstruction finds exactly the true positions that the forward step
   * could have smoothed into `current`.
   */
  lemma ReverseEmaIsTheOnlyPreimage(truePoint: Vec2, current: Vec2, last: Vec2, w: real)
    requires w != 0.0
    ensures ForwardEma(truePoint, last, w) == current <==> truePoint == ReverseEma(current, last, w)
  {
    if ForwardEma(truePoint, last, w) == current {
      ReverseEmaInvertsForward(truePoint, last, w);
    } else {
      ReverseEmaUndoesSmoothing(current, last, w);
    }
  }

  /** A report that repeats the baseline is reconstructed as the baseline itself. */
  lemma ReverseEmaFixesBaseline(last: Vec2, w: real)
    requires w != 0.0
    ensures ReverseEma(last, last, w) == last
  {
  }
}
