/** Points shared by the game models: the player position, the bullets and
    the enemies of the Redux slice and of the hook prototype are all `{x, y}`
    records. Coordinates are pixels, kept as `real` because the game adds
    fractional amounts (0.5, 1.2, 2.5) to them. */
module Geometry {

  datatype Pos = Pos(x: real, y: real)

  /** `t` lies strictly inside the span that starts at `a` and is `w` wide. */
  predicate InSpan(t: real, a: real, w: real) {
    a < t < a + w
  }

  /** The overlap test every bounding-box check of the game writes out:
      the span [a, a + aw] starts before the end of [b, b + bw] and ends
      after its start. */
  predicate SpansOverlap(a: real, aw: real, b: real, bw: real) {
    a < b + bw && a + aw > b
  }

  /** The two-inequality test means what it is used for: the two open spans
      share a point. */
  lemma SpansOverlapIffCommonPoint(a: real, aw: real, b: real, bw: real)
    requires aw > 0.0 && bw > 0.0
    ensures SpansOverlap(a, aw, b, bw) <==> exists t :: InSpan(t, a, aw) && InSpan(t, b, bw)
  {
    if SpansOverlap(a, aw, b, bw) {
      var lo := if a < b then b else a;
      var hi := if a + aw < b + bw then a + aw else b + bw;
      var t := (lo + hi) / 2.0;
      assert InSpan(t, a, aw) && InSpan(t, b, bw);
    }
  }
}
