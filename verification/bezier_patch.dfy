/**
 * Bezier patches (`CBezierPatch`) over the reals: cutting a patch in two along s or t keeps the surface.
 */
module BezierPatches {

  datatype Vec = Vec(x: real, y: real, z: real) {
    function MulAdd(src: Vec, f: real): Vec {
      Vec(Plus(x, src.x, f), Plus(y, src.y, f), Plus(z, src.z, f))
    }
  }

  function Times(a: real, b: real): real {
    a * b
  }

  function Plus(a: real, b: real, f: real): real {
    a + b * f
  }

  const ZERO := Vec(0.0, 0.0, 0.0)

  function Blend(a: real, b: real, t1: real, t: real): real {
    a * t1 + b * t
  }

  function Mix(a: real, b: real, t: real): real {
    Blend(a, b, 1.0 - t, t)
  }

  function Lerp(a: Vec, b: Vec, t: real): Vec {
    Vec(Mix(a.x, b.x, t), Mix(a.y, b.y, t), Mix(a.z, b.z, t))
  }

  datatype Curve = Curve(p0: Vec, p1: Vec, p2: Vec, p3: Vec)

  function Reversed(c: Curve): Curve {
    Curve(c.p3, c.p2, c.p1, c.p0)
  }

  datatype Weights = Weights(w0: real, w1: real, w2: real, w3: real)

  /** The cubic Bernstein weights, as `eval` computes them. */
  function Bernstein(t: real): Weights {
    Cubic(1.0 - t, t)
  }

  function Cubic(t1: real, t: real): Weights {
    var t2, t12 := t * t, t1 * t1;
    Weights(t12 * t1, 3.0 * t * t12, 3.0 * t2 * t1, t2 * t)
  }

  function Sum4(a: real, b: real, c: real, d: real, w: Weights): real {
    a * w.w0 + b * w.w1 + c * w.w2 + d * w.w3
  }

  function Weighted(c: Curve, w: Weights): Vec {
    Vec(Sum4(c.p0.x, c.p1.x, c.p2.x, c.p3.x, w),
        Sum4(c.p0.y, c.p1.y, c.p2.y, c.p3.y, w),
        Sum4(c.p0.z, c.p1.z, c.p2.z, c.p3.z, w))
  }

  function PointOf(c: Curve, t: real): Vec {
    Weighted(c, Bernstein(t))
  }

  /** The same point by repeated interpolation. */
  function Interpolated(c: Curve, t: real): Vec {
    var a, b, d := Lerp(c.p0, c.p1, t), Lerp(c.p1, c.p2, t), Lerp(c.p2, c.p3, t);
    Lerp(Lerp(a, b, t), Lerp(b, d, t), t)
  }

  lemma ScalarCubic(a: real, b: real, c: real, d: real, t1: real, t: real)
    ensures Blend(Blend(Blend(a, b, t1, t), Blend(b, c, t1, t), t1, t),
                  Blend(Blend(b, c, t1, t), Blend(c, d, t1, t), t1, t), t1, t)
         == Sum4(a, b, c, d, Cubic(t1, t))
  {
    hide Blend, Sum4, Cubic;
    var abc := ScalarSquare(a, b, c, t1, t);
    var bcd := ScalarSquare(b, c, d, t1, t);
    ScalarLastStep(a, b, c, d, t1, t, abc, bcd);
  }

  lemma ScalarSquare(a: real, b: real, c: real, t1: real, t: real) returns (abc: real)
    ensures abc == Blend(Blend(a, b, t1, t), Blend(b, c, t1, t), t1, t)
    ensures abc == a * (t1 * t1) + 2.0 * b * (t1 * t) + c * (t * t)
  {
    abc := a * (t1 * t1) + 2.0 * b * (t1 * t) + c * (t * t);
  }

  lemma ScalarLastStep(a: real, b: real, c: real, d: real, t1: real, t: real, abc: real, bcd: real)
    requires abc == a * (t1 * t1) + 2.0 * b * (t1 * t) + c * (t * t)
    requires bcd == b * (t1 * t1) + 2.0 * c * (t1 * t) + d * (t * t)
    ensures Blend(abc, bcd, t1, t) == Sum4(a, b, c, d, Cubic(t1, t))
  {
    hide Blend, Sum4, Cubic;
    Expanded(a, b, c, d, t1, t, t1 * t1, t1 * t, t * t, abc, bcd);
  }

  lemma Expanded(a: real, b: real, c: real, d: real, t1: real, t: real, t12: real, x: real, t2: real,
                 abc: real, bcd: real)
    requires t12 == t1 * t1 && x == t1 * t && t2 == t * t
    requires abc == a * t12 + 2.0 * b * x + c * t2 && bcd == b * t12 + 2.0 * c * x + d * t2
    ensures Blend(abc, bcd, t1, t) == Sum4(a, b, c, d, Cubic(t1, t))
  {
    assert x * t1 == t * t12 && x * t == t2 * t1;
    assert (b * x) * t1 == b * (t * t12) && (c * x) * t == c * (t2 * t1);
    assert abc * t1 == a * (t12 * t1) + 2.0 * (b * (t * t12)) + c * (t2 * t1);
    assert bcd * t == b * (t * t12) + 2.0 * (c * (t2 * t1)) + d * (t2 * t);
  }

  lemma ScalarPoint(a: real, b: real, c: real, d: real, t: real)
    ensures Mix(Mix(Mix(a, b, t), Mix(b, c, t), t), Mix(Mix(b, c, t), Mix(c, d, t), t), t)
         == Sum4(a, b, c, d, Bernstein(t))
  {
    hide Blend, Sum4, Cubic;
    ScalarCubic(a, b, c, d, 1.0 - t, t);
  }

  lemma PointIsInterpolated(c: Curve, t: real)
    ensures PointOf(c, t) == Interpolated(c, t)
  {
    hide Mix, Sum4;
    ScalarPoint(c.p0.x, c.p1.x, c.p2.x, c.p3.x, t);
    ScalarPoint(c.p0.y, c.p1.y, c.p2.y, c.p3.y, t);
    ScalarPoint(c.p0.z, c.p1.z, c.p2.z, c.p3.z, t);
  }

  lemma ScalarSwap(a: real, b: real, c: real, d: real, p: real, q: real)
    ensures Mix(Mix(a, b, p), Mix(c, d, p), q) == Mix(Mix(a, c, q), Mix(b, d, q), p)
  {
  }

  /** Interpolations in two directions commute. */
  lemma LerpSwap(a: Vec, b: Vec, c: Vec, d: Vec, p: real, q: real)
    ensures Lerp(Lerp(a, b, p), Lerp(c, d, p), q) == Lerp(Lerp(a, c, q), Lerp(b, d, q), p)
  {
    hide Mix, Sum4;
    ScalarSwap(a.x, b.x, c.x, d.x, p, q);
    ScalarSwap(a.y, b.y, c.y, d.y, p, q);
    ScalarSwap(a.z, b.z, c.z, d.z, p, q);
  }

  lemma ScalarAgain(a: real, b: real, s: real, u: real)
    ensures Mix(a, Mix(a, b, s), u) == Mix(a, b, s * u)
  {
  }

  /** Interpolating towards an interpolated point. */
  lemma LerpAgain(a: Vec, b: Vec, s: real, u: real)
    ensures Lerp(a, Lerp(a, b, s), u) == Lerp(a, b, s * u)
  {
    hide Mix, Sum4;
    ScalarAgain(a.x, b.x, s, u);
    ScalarAgain(a.y, b.y, s, u);
    ScalarAgain(a.z, b.z, s, u);
  }

  /** `CBezierCurve::subdivide`. */
  function LeftOf(c: Curve, t: real): Curve {
    var l1 := Lerp(c.p0, c.p1, t);
    var m := Lerp(c.p1, c.p2, t);
    var r2 := Lerp(c.p2, c.p3, t);
    var l2, r1 := Lerp(l1, m, t), Lerp(m, r2, t);
    Curve(c.p0, l1, l2, Lerp(l2, r1, t))
  }

  function RightOf(c: Curve, t: real): Curve {
    var l1 := Lerp(c.p0, c.p1, t);
    var m := Lerp(c.p1, c.p2, t);
    var r2 := Lerp(c.p2, c.p3, t);
    var l2, r1 := Lerp(l1, m, t), Lerp(m, r2, t);
    Curve(Lerp(l2, r1, t), r1, r2, c.p3)
  }

  /** The first half runs along the curve, s times slower. */
  lemma LeftHalf(c: Curve, s: real, u: real, q: real)
    requires q == s * u
    ensures Interpolated(LeftOf(c, s), u) == Interpolated(c, q)
  {
    var l := LeftOf(c, s);
    var a, b, d := Lerp(c.p0, c.p1, s), Lerp(c.p1, c.p2, s), Lerp(c.p2, c.p3, s);
    var ab, bd := Lerp(a, b, s), Lerp(b, d, s);
    var aq, bq, dq := Lerp(c.p0, c.p1, q), Lerp(c.p1, c.p2, q), Lerp(c.p2, c.p3, q);
    // First level: each point moves q instead of s.
    assert Lerp(l.p0, l.p1, u) == aq by {
      LerpAgain(c.p0, c.p1, s, u);
    }
    assert Lerp(l.p1, l.p2, u) == Lerp(aq, bq, s) by {
      LerpAgain(a, b, s, u);
      LerpSwap(c.p0, c.p1, c.p1, c.p2, s, q);
    }
    assert Lerp(l.p2, l.p3, u) == Lerp(Lerp(aq, bq, s), Lerp(bq, dq, s), s) by {
      LerpAgain(ab, bd, s, u);
      LerpSwap(a, b, b, d, s, q);
      LerpSwap(c.p0, c.p1, c.p1, c.p2, s, q);
      LerpSwap(c.p1, c.p2, c.p2, c.p3, s, q);
    }
    // Second and third levels.
    var x, y := Lerp(aq, bq, s), Lerp(bq, dq, s);
    assert Lerp(aq, x, u) == Lerp(aq, bq, q) by {
      LerpAgain(aq, bq, s, u);
    }
    assert Lerp(x, Lerp(x, y, s), u) == Lerp(Lerp(aq, bq, q), Lerp(bq, dq, q), s) by {
      LerpAgain(x, y, s, u);
      LerpSwap(aq, bq, bq, dq, s, q);
    }
    LerpAgain(Lerp(aq, bq, q), Lerp(bq, dq, q), s, u);
  }

  lemma LerpReversed(a: Vec, b: Vec, t: real)
    ensures Lerp(a, b, t) == Lerp(b, a, 1.0 - t)
  {
  }

  lemma InterpolatedReversed(c: Curve, t: real)
    ensures Interpolated(c, t) == Interpolated(Reversed(c), 1.0 - t)
  {
    var a, b, d := Lerp(c.p0, c.p1, t), Lerp(c.p1, c.p2, t), Lerp(c.p2, c.p3, t);
    LerpReversed(c.p0, c.p1, t);
    LerpReversed(c.p1, c.p2, t);
    LerpReversed(c.p2, c.p3, t);
    LerpReversed(a, b, t);
    LerpReversed(b, d, t);
    LerpReversed(Lerp(a, b, t), Lerp(b, d, t), t);
    hide Lerp;
  }

  lemma HalvesReversed(c: Curve, t: real)
    ensures Reversed(RightOf(c, t)) == LeftOf(Reversed(c), 1.0 - t)
  {
    var a, b, d := Lerp(c.p0, c.p1, t), Lerp(c.p1, c.p2, t), Lerp(c.p2, c.p3, t);
    LerpReversed(c.p0, c.p1, t);
    LerpReversed(c.p1, c.p2, t);
    LerpReversed(c.p2, c.p3, t);
    LerpReversed(a, b, t);
    LerpReversed(b, d, t);
    LerpReversed(Lerp(a, b, t), Lerp(b, d, t), t);
    hide Lerp;
  }

  /** The second half goes on from there to the end. */
  lemma RightHalf(c: Curve, s: real, u: real, q: real)
    requires q == s + (1.0 - s) * u
    ensures Interpolated(RightOf(c, s), u) == Interpolated(c, q)
  {
    hide Interpolated, LeftOf, RightOf;
    Complement(s, u);
    InterpolatedReversed(RightOf(c, s), u);
    HalvesReversed(c, s);
    LeftHalf(Reversed(c), 1.0 - s, 1.0 - u, 1.0 - q);
    InterpolatedReversed(c, q);
  }

  lemma Complement(s: real, u: real)
    ensures 1.0 - (s + (1.0 - s) * u) == (1.0 - s) * (1.0 - u)
  {
  }

  /** The control points of a patch, under the names the source gives them. */
  datatype Patch = Patch(vertices: seq<Vec>, tangents: seq<Vec>, interiors: seq<Vec>) {
    ghost predicate Valid() {
      |vertices| == 4 && |tangents| == 8 && |interiors| == 4
    }

    /** The curves along s. */
    function Row(j: nat): Curve
      requires Valid() && j < 4
    {
      if j == 0 then Curve(vertices[0], tangents[7], tangents[6], vertices[3])
      else if j == 1 then Curve(tangents[0], interiors[0], interiors[3], tangents[5])
      else if j == 2 then Curve(tangents[1], interiors[1], interiors[2], tangents[4])
      else Curve(vertices[1], tangents[2], tangents[3], vertices[2])
    }

    /** The curves along t. */
    function Column(i: nat): Curve
      requires Valid() && i < 4
    {
      if i == 0 then Curve(vertices[0], tangents[0], tangents[1], vertices[1])
      else if i == 1 then Curve(tangents[7], interiors[0], interiors[1], tangents[2])
      else if i == 2 then Curve(tangents[6], interiors[3], interiors[2], tangents[3])
      else Curve(vertices[3], tangents[5], tangents[4], vertices[2])
    }
  }

  /** A patch is its rows, and it is its columns. */
  function FromRows(r: seq<Curve>): (p: Patch)
    requires |r| == 4
    ensures p.Valid() && forall j | 0 <= j < 4 :: p.Row(j) == r[j]
  {
    Patch([r[0].p0, r[3].p0, r[3].p3, r[0].p3],
          [r[1].p0, r[2].p0, r[3].p1, r[3].p2, r[2].p3, r[1].p3, r[0].p2, r[0].p1],
          [r[1].p1, r[2].p1, r[2].p2, r[1].p2])
  }

  function FromColumns(c: seq<Curve>): (p: Patch)
    requires |c| == 4
    ensures p.Valid() && forall i | 0 <= i < 4 :: p.Column(i) == c[i]
  {
    Patch([c[0].p0, c[0].p3, c[3].p3, c[3].p0],
          [c[0].p1, c[0].p2, c[1].p3, c[2].p3, c[3].p2, c[3].p1, c[2].p0, c[1].p0],
          [c[1].p1, c[1].p2, c[2].p2, c[2].p1])
  }

  /** The surface: the sixteen control points weighted, summed in the order of the source. */
  function Eval(p: Patch, s: real, t: real): Vec
    requires p.Valid()
  {
    var ws, wt := Bernstein(s), Bernstein(t);
    ZERO.MulAdd(p.vertices[0], Times(ws.w0, wt.w0)).MulAdd(p.tangents[7], Times(ws.w1, wt.w0))
        .MulAdd(p.tangents[6], Times(ws.w2, wt.w0)).MulAdd(p.vertices[3], Times(ws.w3, wt.w0))
        .MulAdd(p.tangents[0], Times(ws.w0, wt.w1)).MulAdd(p.interiors[0], Times(ws.w1, wt.w1))
        .MulAdd(p.interiors[3], Times(ws.w2, wt.w1)).MulAdd(p.tangents[5], Times(ws.w3, wt.w1))
        .MulAdd(p.tangents[1], Times(ws.w0, wt.w2)).MulAdd(p.interiors[1], Times(ws.w1, wt.w2))
        .MulAdd(p.interiors[2], Times(ws.w2, wt.w2)).MulAdd(p.tangents[4], Times(ws.w3, wt.w2))
        .MulAdd(p.vertices[1], Times(ws.w0, wt.w3)).MulAdd(p.tangents[2], Times(ws.w1, wt.w3))
        .MulAdd(p.tangents[3], Times(ws.w2, wt.w3)).MulAdd(p.vertices[2], Times(ws.w3, wt.w3))
  }

  lemma ScalarRow(sum: real, a: real, b: real, c: real, d: real, w: Weights, f: real)
    ensures Plus(Plus(Plus(Plus(sum, a, Times(w.w0, f)), b, Times(w.w1, f)), c, Times(w.w2, f)), d, Times(w.w3, f))
         == Plus(sum, Sum4(a, b, c, d, w), f)
  {
  }

  /** Four terms of the sum are one point of a row, weighted. */
  lemma AddRow(sum: Vec, c: Curve, w: Weights, f: real)
    ensures sum.MulAdd(c.p0, Times(w.w0, f)).MulAdd(c.p1, Times(w.w1, f)).MulAdd(c.p2, Times(w.w2, f)).MulAdd(c.p3, Times(w.w3, f))
         == sum.MulAdd(Weighted(c, w), f)
  {
    hide Sum4, Plus, Times;
    ScalarRow(sum.x, c.p0.x, c.p1.x, c.p2.x, c.p3.x, w, f);
    ScalarRow(sum.y, c.p0.y, c.p1.y, c.p2.y, c.p3.y, w, f);
    ScalarRow(sum.z, c.p0.z, c.p1.z, c.p2.z, c.p3.z, w, f);
  }

  /** The curve along t through the points of the rows at s. */
  function AcrossRows(p: Patch, s: real): Curve
    requires p.Valid()
  {
    Curve(PointOf(p.Row(0), s), PointOf(p.Row(1), s), PointOf(p.Row(2), s), PointOf(p.Row(3), s))
  }

  function AcrossColumns(p: Patch, t: real): Curve
    requires p.Valid()
  {
    Curve(PointOf(p.Column(0), t), PointOf(p.Column(1), t), PointOf(p.Column(2), t), PointOf(p.Column(3), t))
  }

  lemma SumOfFour(a: Vec, b: Vec, c: Vec, d: Vec, w: Weights)
    ensures ZERO.MulAdd(a, w.w0).MulAdd(b, w.w1).MulAdd(c, w.w2).MulAdd(d, w.w3) == Weighted(Curve(a, b, c, d), w)
  {
  }

  /** A point of the surface is a point of the curve through the points of the rows. */
  lemma EvalByRows(p: Patch, s: real, t: real)
    requires p.Valid()
    ensures Eval(p, s, t) == PointOf(AcrossRows(p, s), t)
  {
    hide Bernstein, Weighted, Vec.MulAdd, Times;
    var ws, wt := Bernstein(s), Bernstein(t);
    var c := AcrossRows(p, s);
    AddRow(ZERO, p.Row(0), ws, wt.w0);
    var a := ZERO.MulAdd(c.p0, wt.w0);
    AddRow(a, p.Row(1), ws, wt.w1);
    var b := a.MulAdd(c.p1, wt.w1);
    AddRow(b, p.Row(2), ws, wt.w2);
    var d := b.MulAdd(c.p2, wt.w2);
    AddRow(d, p.Row(3), ws, wt.w3);
    SumOfFour(c.p0, c.p1, c.p2, c.p3, wt);
  }

  /** A curve starts and ends on its end points. */
  lemma PointAtEnds(c: Curve)
    ensures PointOf(c, 0.0) == c.p0 && PointOf(c, 1.0) == c.p3
  {
    assert Bernstein(0.0) == Weights(1.0, 0.0, 0.0, 0.0) && Bernstein(1.0) == Weights(0.0, 0.0, 0.0, 1.0);
    hide Bernstein;
  }

  /** The border of the surface: the curves of the control points around it, from vertex to vertex. */
  lemma BordersAre(p: Patch, s: real, t: real)
    requires p.Valid()
    ensures Eval(p, s, 0.0) == PointOf(Curve(p.vertices[0], p.tangents[7], p.tangents[6], p.vertices[3]), s)
    ensures Eval(p, s, 1.0) == PointOf(Curve(p.vertices[1], p.tangents[2], p.tangents[3], p.vertices[2]), s)
    ensures Eval(p, 0.0, t) == PointOf(Curve(p.vertices[0], p.tangents[0], p.tangents[1], p.vertices[1]), t)
    ensures Eval(p, 1.0, t) == PointOf(Curve(p.vertices[3], p.tangents[5], p.tangents[4], p.vertices[2]), t)
  {
    hide PointOf, Eval;
    EvalByRows(p, s, 0.0);
    EvalByRows(p, s, 1.0);
    EvalByColumns(p, 0.0, t);
    EvalByColumns(p, 1.0, t);
    PointAtEnds(AcrossRows(p, s));
    PointAtEnds(AcrossColumns(p, t));
  }

  lemma Sum4Times(a: real, b: real, c: real, d: real, w: Weights, f: real)
    ensures Sum4(a, b, c, d, w) * f == Sum4(a * f, b * f, c * f, d * f, w)
  {
  }

  lemma Sum4Plus(a: real, b: real, c: real, d: real, e: real, f: real, g: real, h: real, w: Weights)
    ensures Sum4(a, b, c, d, w) + Sum4(e, f, g, h, w) == Sum4(a + e, b + f, c + g, d + h, w)
  {
  }

  lemma FourSums(x: seq<seq<real>>, w: Weights)
    requires |x| == 4 && forall j | 0 <= j < 4 :: |x[j]| == 4
    ensures Sum4(x[0][0], x[0][1], x[0][2], x[0][3], w) + Sum4(x[1][0], x[1][1], x[1][2], x[1][3], w)
          + Sum4(x[2][0], x[2][1], x[2][2], x[2][3], w) + Sum4(x[3][0], x[3][1], x[3][2], x[3][3], w)
         == Sum4(x[0][0] + x[1][0] + x[2][0] + x[3][0], x[0][1] + x[1][1] + x[2][1] + x[3][1],
                 x[0][2] + x[1][2] + x[2][2] + x[3][2], x[0][3] + x[1][3] + x[2][3] + x[3][3], w)
  {
    hide Sum4;
    var a, b, c, d := x[0], x[1], x[2], x[3];
    Sum4Plus(a[0], a[1], a[2], a[3], b[0], b[1], b[2], b[3], w);
    Sum4Plus(a[0] + b[0], a[1] + b[1], a[2] + b[2], a[3] + b[3], c[0], c[1], c[2], c[3], w);
    Sum4Plus(a[0] + b[0] + c[0], a[1] + b[1] + c[1], a[2] + b[2] + c[2], a[3] + b[3] + c[3],
             d[0], d[1], d[2], d[3], w);
  }

  lemma ScalarTranspose(m: seq<real>, v: Weights, w: Weights)
    requires |m| == 16
    ensures Sum4(Sum4(m[0], m[1], m[2], m[3], v), Sum4(m[4], m[5], m[6], m[7], v),
                 Sum4(m[8], m[9], m[10], m[11], v), Sum4(m[12], m[13], m[14], m[15], v), w)
         == Sum4(Sum4(m[0], m[4], m[8], m[12], w), Sum4(m[1], m[5], m[9], m[13], w),
                 Sum4(m[2], m[6], m[10], m[14], w), Sum4(m[3], m[7], m[11], m[15], w), v)
  {
    Sum4Times(m[0], m[1], m[2], m[3], v, w.w0);
    Sum4Times(m[4], m[5], m[6], m[7], v, w.w1);
    Sum4Times(m[8], m[9], m[10], m[11], v, w.w2);
    Sum4Times(m[12], m[13], m[14], m[15], v, w.w3);
    FourSums([[m[0] * w.w0, m[1] * w.w0, m[2] * w.w0, m[3] * w.w0],
              [m[4] * w.w1, m[5] * w.w1, m[6] * w.w1, m[7] * w.w1],
              [m[8] * w.w2, m[9] * w.w2, m[10] * w.w2, m[11] * w.w2],
              [m[12] * w.w3, m[13] * w.w3, m[14] * w.w3, m[15] * w.w3]], v);
  }

  /** It is also a point of the curve through the points of the columns. */
  lemma EvalByColumns(p: Patch, s: real, t: real)
    requires p.Valid()
    ensures Eval(p, s, t) == PointOf(AcrossColumns(p, t), s)
  {
    EvalByRows(p, s, t);
    var ws, wt := Bernstein(s), Bernstein(t);
    var m := [p.Row(0).p0, p.Row(0).p1, p.Row(0).p2, p.Row(0).p3, p.Row(1).p0, p.Row(1).p1, p.Row(1).p2, p.Row(1).p3,
              p.Row(2).p0, p.Row(2).p1, p.Row(2).p2, p.Row(2).p3, p.Row(3).p0, p.Row(3).p1, p.Row(3).p2, p.Row(3).p3];
    hide Bernstein, Sum4;
    ScalarTranspose(seq(16, i requires 0 <= i < 16 => m[i].x), ws, wt);
    ScalarTranspose(seq(16, i requires 0 <= i < 16 => m[i].y), ws, wt);
    ScalarTranspose(seq(16, i requires 0 <= i < 16 => m[i].z), ws, wt);
  }

  /** `subdivideS` and `subdivideT`, as values: every curve one way is cut in two. */
  function LeftS(p: Patch, s: real): Patch
    requires p.Valid()
  {
    FromRows([LeftOf(p.Row(0), s), LeftOf(p.Row(1), s), LeftOf(p.Row(2), s), LeftOf(p.Row(3), s)])
  }

  function RightS(p: Patch, s: real): Patch
    requires p.Valid()
  {
    FromRows([RightOf(p.Row(0), s), RightOf(p.Row(1), s), RightOf(p.Row(2), s), RightOf(p.Row(3), s)])
  }

  function TopT(p: Patch, t: real): Patch
    requires p.Valid()
  {
    FromColumns([LeftOf(p.Column(0), t), LeftOf(p.Column(1), t), LeftOf(p.Column(2), t), LeftOf(p.Column(3), t)])
  }

  function BottomT(p: Patch, t: real): Patch
    requires p.Valid()
  {
    FromColumns([RightOf(p.Column(0), t), RightOf(p.Column(1), t), RightOf(p.Column(2), t), RightOf(p.Column(3), t)])
  }

  lemma PointOfHalves(c: Curve, s: real, u: real, l: real, r: real)
    requires l == s * u && r == s + (1.0 - s) * u
    ensures PointOf(LeftOf(c, s), u) == PointOf(c, l) && PointOf(RightOf(c, s), u) == PointOf(c, r)
  {
    hide Interpolated, PointOf, LeftOf, RightOf;
    LeftHalf(c, s, u, l);
    RightHalf(c, s, u, r);
    PointIsInterpolated(LeftOf(c, s), u);
    PointIsInterpolated(RightOf(c, s), u);
    PointIsInterpolated(c, l);
    PointIsInterpolated(c, r);
  }

  /** Both halves show the part of the surface on their side of the cut, for all parameters. */
  lemma SubdivideSKeepsSurface(p: Patch, s: real, u: real, t: real, l: real, r: real)
    requires p.Valid() && l == s * u && r == s + (1.0 - s) * u
    ensures Eval(LeftS(p, s), u, t) == Eval(p, l, t)
    ensures Eval(RightS(p, s), u, t) == Eval(p, r, t)
  {
    hide Eval, PointOf, LeftOf, RightOf, FromRows;
    for j := 0 to 4
      invariant forall k | 0 <= k < j :: PointOf(LeftOf(p.Row(k), s), u) == PointOf(p.Row(k), l)
      invariant forall k | 0 <= k < j :: PointOf(RightOf(p.Row(k), s), u) == PointOf(p.Row(k), r)
    {
      PointOfHalves(p.Row(j), s, u, l, r);
    }
    EvalByRows(LeftS(p, s), u, t);
    EvalByRows(RightS(p, s), u, t);
    EvalByRows(p, l, t);
    EvalByRows(p, r, t);
  }

  lemma SubdivideTKeepsSurface(p: Patch, s: real, t: real, v: real, l: real, r: real)
    requires p.Valid() && l == t * v && r == t + (1.0 - t) * v
    ensures Eval(TopT(p, t), s, v) == Eval(p, s, l)
    ensures Eval(BottomT(p, t), s, v) == Eval(p, s, r)
  {
    hide Eval, PointOf, LeftOf, RightOf, FromColumns;
    for j := 0 to 4
      invariant forall k | 0 <= k < j :: PointOf(LeftOf(p.Column(k), t), v) == PointOf(p.Column(k), l)
      invariant forall k | 0 <= k < j :: PointOf(RightOf(p.Column(k), t), v) == PointOf(p.Column(k), r)
    {
      PointOfHalves(p.Column(j), t, v, l, r);
    }
    EvalByColumns(TopT(p, t), s, v);
    EvalByColumns(BottomT(p, t), s, v);
    EvalByColumns(p, s, l);
    EvalByColumns(p, s, r);
  }

  /** Two patches side by side along s, or along t, with a border in common. */
  ghost predicate BesideS(p: Patch, q: Patch)
    requires p.Valid() && q.Valid()
  {
    p.Column(3) == q.Column(0)
  }

  ghost predicate BesideT(p: Patch, q: Patch)
    requires p.Valid() && q.Valid()
  {
    p.Row(3) == q.Row(0)
  }

  /** The halves share the border along the cut, and it lies on the surface. */
  lemma HalvesMeetS(p: Patch, s: real, t: real)
    requires p.Valid()
    ensures BesideS(LeftS(p, s), RightS(p, s))
    ensures Eval(LeftS(p, s), 1.0, t) == Eval(p, s, t) == Eval(RightS(p, s), 0.0, t)
  {
    hide Eval, Lerp;
    SubdivideSKeepsSurface(p, s, 1.0, t, s, 1.0);
    SubdivideSKeepsSurface(p, s, 0.0, t, 0.0, s);
  }

  lemma HalvesMeetT(p: Patch, s: real, t: real)
    requires p.Valid()
    ensures BesideT(TopT(p, t), BottomT(p, t))
    ensures Eval(TopT(p, t), s, 1.0) == Eval(p, s, t) == Eval(BottomT(p, t), s, 0.0)
  {
    hide Eval, Lerp;
    SubdivideTKeepsSurface(p, s, t, 1.0, t, 1.0);
    SubdivideTKeepsSurface(p, s, t, 0.0, 0.0, t);
  }

  /** No cracks: patches with a border in common still share its pieces after a cut across it. */
  lemma CutAcrossBorder(p: Patch, q: Patch, k: real)
    requires p.Valid() && q.Valid()
    ensures BesideS(p, q) ==> BesideS(TopT(p, k), TopT(q, k)) && BesideS(BottomT(p, k), BottomT(q, k))
    ensures BesideT(p, q) ==> BesideT(LeftS(p, k), LeftS(q, k)) && BesideT(RightS(p, k), RightS(q, k))
  {
    hide Lerp, LeftOf, RightOf, FromRows, FromColumns;
  }

  // ---- The class ----

  class BezierPatch {
    var vertices: seq<Vec>
    var tangents: seq<Vec>
    var interiors: seq<Vec>

    ghost predicate Valid()
      reads this
    {
      Value().Valid()
    }

    ghost function Value(): Patch
      reads this
    {
      Patch(vertices, tangents, interiors)
    }

    constructor (p: Patch)
      requires p.Valid()
      ensures Value() == p
    {
      vertices, tangents, interiors := p.vertices, p.tangents, p.interiors;
    }

    method EvalAt(ps: real, pt: real) returns (p: Vec)
      requires Valid()
      ensures p == Eval(Value(), ps, pt)
    {
      hide Bernstein, Plus, Times;
      var s, t := Bernstein(ps), Bernstein(pt);
      p := ZERO;
      p := p.MulAdd(vertices[0], Times(s.w0, t.w0));
      p := p.MulAdd(tangents[7], Times(s.w1, t.w0));
      p := p.MulAdd(tangents[6], Times(s.w2, t.w0));
      p := p.MulAdd(vertices[3], Times(s.w3, t.w0));
      p := p.MulAdd(tangents[0], Times(s.w0, t.w1));
      p := p.MulAdd(interiors[0], Times(s.w1, t.w1));
      p := p.MulAdd(interiors[3], Times(s.w2, t.w1));
      p := p.MulAdd(tangents[5], Times(s.w3, t.w1));
      p := p.MulAdd(tangents[1], Times(s.w0, t.w2));
      p := p.MulAdd(interiors[1], Times(s.w1, t.w2));
      p := p.MulAdd(interiors[2], Times(s.w2, t.w2));
      p := p.MulAdd(tangents[4], Times(s.w3, t.w2));
      p := p.MulAdd(vertices[1], Times(s.w0, t.w3));
      p := p.MulAdd(tangents[2], Times(s.w1, t.w3));
      p := p.MulAdd(tangents[3], Times(s.w2, t.w3));
      p := p.MulAdd(vertices[2], Times(s.w3, t.w3));
    }

    /** Writes the control points of the curves back along s. */
    method SetRows(r: seq<Curve>)
      requires |r| == 4
      modifies this
      ensures Value() == FromRows(r)
    {
      vertices := [r[0].p0, r[3].p0, r[3].p3, r[0].p3];
      tangents := [r[1].p0, r[2].p0, r[3].p1, r[3].p2, r[2].p3, r[1].p3, r[0].p2, r[0].p1];
      interiors := [r[1].p1, r[2].p1, r[2].p2, r[1].p2];
    }

    method SetColumns(c: seq<Curve>)
      requires |c| == 4
      modifies this
      ensures Value() == FromColumns(c)
    {
      vertices := [c[0].p0, c[0].p3, c[3].p3, c[3].p0];
      tangents := [c[0].p1, c[0].p2, c[1].p3, c[2].p3, c[3].p2, c[3].p1, c[2].p0, c[1].p0];
      interiors := [c[1].p1, c[1].p2, c[2].p2, c[2].p1];
    }

    /** The patch may be one of its own halves: its curves are read before any is written. */
    method SubdivideS(left: BezierPatch, right: BezierPatch, s: real)
      requires Valid()
      modifies left, right
      ensures right.Value() == RightS(old(Value()), s)
      ensures left != right ==> left.Value() == LeftS(old(Value()), s)
    {
      var curveT := [Curve(vertices[0], tangents[7], tangents[6], vertices[3]),
                     Curve(tangents[0], interiors[0], interiors[3], tangents[5]),
                     Curve(tangents[1], interiors[1], interiors[2], tangents[4]),
                     Curve(vertices[1], tangents[2], tangents[3], vertices[2])];
      var curveTLeft, curveTRight := SubdivideAll(curveT, s);
      left.SetRows(curveTLeft);
      right.SetRows(curveTRight);
    }

    method SubdivideT(top: BezierPatch, bottom: BezierPatch, t: real)
      requires Valid()
      modifies top, bottom
      ensures bottom.Value() == BottomT(old(Value()), t)
      ensures top != bottom ==> top.Value() == TopT(old(Value()), t)
    {
      var curveS := [Curve(vertices[0], tangents[0], tangents[1], vertices[1]),
                     Curve(tangents[7], interiors[0], interiors[1], tangents[2]),
                     Curve(tangents[6], interiors[3], interiors[2], tangents[3]),
                     Curve(vertices[3], tangents[5], tangents[4], vertices[2])];
      var curveSTop, curveSBottom := SubdivideAll(curveS, t);
      top.SetColumns(curveSTop);
      bottom.SetColumns(curveSBottom);
    }
  }

  method SubdivideAll(curves: seq<Curve>, t: real) returns (left: seq<Curve>, right: seq<Curve>)
    ensures |left| == |right| == |curves|
    ensures forall i | 0 <= i < |curves| :: left[i] == LeftOf(curves[i], t) && right[i] == RightOf(curves[i], t)
  {
    left, right := [], [];
    for i := 0 to |curves|
      invariant |left| == |right| == i
      invariant forall k | 0 <= k < i :: left[k] == LeftOf(curves[k], t) && right[k] == RightOf(curves[k], t)
    {
      left, right := left + [LeftOf(curves[i], t)], right + [RightOf(curves[i], t)];
    }
  }
}
