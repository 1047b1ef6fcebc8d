/** Projectile hits: exact entry fractions, and the one target they single out. */
module Combat {
  import opened Options
  import opened Entities

  // ---- a moving point against a box ----

  /** A fraction n/d of one tick, d > 0. */
  datatype Frac = Frac(n: int, d: int)

  function Value(f: Frac): real
    requires f.d > 0
  {
    f.n as real / f.d as real
  }

  predicate Less(a: Frac, b: Frac) { a.n * b.d < b.n * a.d }
  predicate Same(a: Frac, b: Frac) { a.n * b.d == b.n * a.d }

  lemma LessIsLess(a: Frac, b: Frac)
    requires a.d > 0 && b.d > 0
    ensures Less(a, b) <==> Value(a) < Value(b)
    ensures Same(a, b) <==> Value(a) == Value(b)
  {
    var x, y, p, q := a.n as real, b.n as real, a.d as real, b.d as real;
    assert (a.n * b.d) as real == x * q && (b.n * a.d) as real == y * p;
    assert x == Value(a) * p && y == Value(b) * q;
    var u, v := Value(a), Value(b);
    assert x * q == u * (p * q) && y * p == v * (p * q);
    var w := p * q;
    assert w > 0.0;
    if u < v { ScaleLess(u, v, w); }
    if v < u { ScaleLess(v, u, w); }
  }

  lemma ScaleLess(u: real, v: real, w: real)
    requires u < v && w > 0.0
    ensures u * w < v * w
  {
    assert (v - u) * w > 0.0;
  }

  /** Where an axis stands at time t. */
  ghost function Reach(p0: int, v: int, t: real): real { p0 as real + v as real * t }

  /** One axis at time t: closed while moving, half-open while still. */
  ghost predicate AxisInside(p0: int, v: int, lo: int, hi: int, t: real) {
    if v == 0 then lo <= p0 < hi
    else lo as real <= Reach(p0, v, t) <= hi as real
  }

  ghost predicate Inside(x0: int, y0: int, vx: int, vy: int, xl: int, xh: int, yl: int, yh: int, t: real) {
    0.0 <= t <= 1.0 && AxisInside(x0, vx, xl, xh, t) && AxisInside(y0, vy, yl, yh, t)
  }

  /** The times one moving axis is inside, as the fractions the code computes. */
  function Entry(p0: int, v: int, lo: int, hi: int): Frac
    requires v != 0
  {
    if v > 0 then Frac(lo - p0, v) else Frac(-(hi - p0), -v)
  }

  function Exit(p0: int, v: int, lo: int, hi: int): Frac
    requires v != 0
  {
    if v > 0 then Frac(hi - p0, v) else Frac(-(lo - p0), -v)
  }

  lemma QuotientCompare(n: real, d: real, t: real)
    requires d > 0.0
    ensures (n / d <= t <==> n <= t * d) && (t <= n / d <==> t * d <= n)
  {
    var q := n / d;
    assert q * d == n;
    CompareScaled(q, t, d);
    CompareScaled(t, q, d);
  }

  /** Moving up, the bound is passed at its fraction. */
  lemma PassesUp(p0: int, v: int, bound: int, t: real)
    requires v > 0
    ensures Value(Frac(bound - p0, v)) <= t <==> bound as real <= Reach(p0, v, t)
    ensures t <= Value(Frac(bound - p0, v)) <==> Reach(p0, v, t) <= bound as real
  {
    QuotientCompare((bound - p0) as real, v as real, t);
    assert (bound - p0) as real == bound as real - p0 as real;
  }

  lemma PassesDown(p0: int, v: int, bound: int, t: real)
    requires v < 0
    ensures Value(Frac(-(bound - p0), -v)) <= t <==> Reach(p0, v, t) <= bound as real
    ensures t <= Value(Frac(-(bound - p0), -v)) <==> bound as real <= Reach(p0, v, t)
  {
    QuotientCompare((-(bound - p0)) as real, (-v) as real, t);
    assert (-(bound - p0)) as real == p0 as real - bound as real;
    assert t * (-v) as real == 0.0 - v as real * t;
  }

  lemma AxisInterval(p0: int, v: int, lo: int, hi: int, t: real)
    requires v != 0
    ensures AxisInside(p0, v, lo, hi, t) <==> Value(Entry(p0, v, lo, hi)) <= t <= Value(Exit(p0, v, lo, hi))
  {
    hide Value, Reach;
    if v > 0 {
      PassesUp(p0, v, lo, t);
      PassesUp(p0, v, hi, t);
    } else {
      PassesDown(p0, v, lo, t);
      PassesDown(p0, v, hi, t);
    }
  }

  lemma CompareScaled(u: real, v: real, w: real)
    requires w > 0.0
    ensures u <= v <==> u * w <= v * w
  {
    if u < v { ScaleLess(u, v, w); }
    if v < u { ScaleLess(v, u, w); }
  }

  /** [lo, hi] within [0, 1] holds the times passed by the axes tested so far. */
  datatype Span = Span(lo: Frac, hi: Frac)

  ghost predicate Within(s: Span, t: real)
    requires s.lo.d > 0 && s.hi.d > 0
  {
    Value(s.lo) <= t <= Value(s.hi)
  }

  /** Intersecting with a moving axis: the later entry and the earlier exit. */
  function Clip(s: Span, p0: int, v: int, lo: int, hi: int): Span
    requires v != 0
  {
    var e, x := Entry(p0, v, lo, hi), Exit(p0, v, lo, hi);
    Span(if Less(s.lo, e) then e else s.lo, if Less(x, s.hi) then x else s.hi)
  }

  lemma ClipWithin(s: Span, p0: int, v: int, lo: int, hi: int, t: real)
    requires s.lo.d > 0 && s.hi.d > 0 && v != 0
    ensures Within(Clip(s, p0, v, lo, hi), t) <==> Within(s, t) && AxisInside(p0, v, lo, hi, t)
  {
    var e, x := Entry(p0, v, lo, hi), Exit(p0, v, lo, hi);
    LessIsLess(s.lo, e);
    LessIsLess(x, s.hi);
    AxisInterval(p0, v, lo, hi, t);
    hide AxisInside, Value;
  }

  lemma ClipNonNegative(s: Span, p0: int, v: int, lo: int, hi: int)
    requires s.lo.d > 0 && s.hi.d > 0 && v != 0 && s.lo.n >= 0
    ensures Clip(s, p0, v, lo, hi).lo.n >= 0
  {
    var e := Entry(p0, v, lo, hi);
    assert s.lo.n * e.d >= 0;
    if e.n < 0 {
      assert e.n * s.lo.d < 0;
    }
  }

  /** f is the least time in the tick at which the moving point is inside. */
  ghost predicate FirstInside(x0: int, y0: int, vx: int, vy: int, xl: int, xh: int, yl: int, yh: int, f: Frac) {
    && f.d > 0 && f.n >= 0
    && Inside(x0, y0, vx, vy, xl, xh, yl, yh, Value(f))
    && forall t: real | Inside(x0, y0, vx, vy, xl, xh, yl, yh, t) :: Value(f) <= t
  }

  ghost predicate NeverInside(x0: int, y0: int, vx: int, vy: int, xl: int, xh: int, yl: int, yh: int) {
    forall t: real :: !Inside(x0, y0, vx, vy, xl, xh, yl, yh, t)
  }

  function ClipSpan(s: Span, p0: int, v: int, lo: int, hi: int): Option<Span> {
    if v == 0 then (if p0 < lo || p0 >= hi then None else Some(s)) else Some(Clip(s, p0, v, lo, hi))
  }

  /** The fraction the code settles on, if any. */
  function SegmentHit(x0: int, y0: int, vx: int, vy: int, xl: int, xh: int, yl: int, yh: int): Option<Frac> {
    match ClipSpan(Span(Frac(0, 1), Frac(1, 1)), x0, vx, xl, xh)
    case None => None
    case Some(sx) =>
      match ClipSpan(sx, y0, vy, yl, yh)
      case None => None
      case Some(sy) => if Less(sy.hi, sy.lo) then None else Some(sy.lo)
  }

  /** Clipping keeps exactly the times inside the axis. */
  lemma ClipSpanWithin(s: Span, p0: int, v: int, lo: int, hi: int)
    requires s.lo.d > 0 && s.hi.d > 0 && s.lo.n >= 0
    ensures match ClipSpan(s, p0, v, lo, hi)
            case None => forall t: real :: !AxisInside(p0, v, lo, hi, t)
            case Some(r) =>
              && r.lo.d > 0 && r.hi.d > 0 && r.lo.n >= 0
              && forall t: real :: Within(r, t) <==> Within(s, t) && AxisInside(p0, v, lo, hi, t)
  {
    if v != 0 {
      ClipNonNegative(s, p0, v, lo, hi);
      hide Less, Within, AxisInside, Value;
      forall t: real
        ensures Within(Clip(s, p0, v, lo, hi), t) <==> Within(s, t) && AxisInside(p0, v, lo, hi, t)
      {
        ClipWithin(s, p0, v, lo, hi, t);
      }
    }
  }

  /** The hit is the least time inside the box; no hit means the point is never inside during the tick. */
  lemma SegmentHitExact(x0: int, y0: int, vx: int, vy: int, xl: int, xh: int, yl: int, yh: int)
    ensures match SegmentHit(x0, y0, vx, vy, xl, xh, yl, yh)
            case Some(f) => FirstInside(x0, y0, vx, vy, xl, xh, yl, yh, f)
            case None => NeverInside(x0, y0, vx, vy, xl, xh, yl, yh)
  {
    var s := Span(Frac(0, 1), Frac(1, 1));
    ClipSpanWithin(s, x0, vx, xl, xh);
    var cx := ClipSpan(s, x0, vx, xl, xh);
    if cx.Some? {
      ClipSpanWithin(cx.value, y0, vy, yl, yh);
      var cy := ClipSpan(cx.value, y0, vy, yl, yh);
      if cy.Some? {
        var r := cy.value;
        forall t: real
          ensures Within(r, t) <==> Inside(x0, y0, vx, vy, xl, xh, yl, yh, t)
        {
          assert Within(r, t) <==> Within(cx.value, t) && AxisInside(y0, vy, yl, yh, t);
          assert Within(cx.value, t) <==> Within(s, t) && AxisInside(x0, vx, xl, xh, t);
        }
        LessIsLess(r.hi, r.lo);
        assert Within(r, Value(r.lo)) <==> !Less(r.hi, r.lo);
      }
    }
  }

  method ClipAxis(p0: int, v: int, lo: int, hi: int, s: Span) returns (ok: bool, r: Span)
    ensures ClipSpan(s, p0, v, lo, hi) == if ok then Some(r) else None
  {
    if v == 0 {
      return !(p0 < lo || p0 >= hi), s;
    }
    var en, ed := if v > 0 then lo - p0 else hi - p0, v;
    var xn, xd := if v > 0 then hi - p0 else lo - p0, v;
    if ed < 0 {
      en, ed := -en, -ed;
    }
    if xd < 0 {
      xn, xd := -xn, -xd;
    }
    r := s;
    if en * s.lo.d > s.lo.n * ed {
      r := r.(lo := Frac(en, ed));
    }
    if xn * s.hi.d < s.hi.n * xd {
      r := r.(hi := Frac(xn, xd));
    }
    ok := true;
  }

  method SegmentVsBox(x0: int, y0: int, vx: int, vy: int, xl: int, xh: int, yl: int, yh: int)
    returns (f: Frac, ok: bool)
    ensures SegmentHit(x0, y0, vx, vy, xl, xh, yl, yh) == if ok then Some(f) else None
    ensures ok ==> FirstInside(x0, y0, vx, vy, xl, xh, yl, yh, f)
    ensures !ok ==> NeverInside(x0, y0, vx, vy, xl, xh, yl, yh)
  {
    SegmentHitExact(x0, y0, vx, vy, xl, xh, yl, yh);
    var okX, sx := ClipAxis(x0, vx, xl, xh, Span(Frac(0, 1), Frac(1, 1)));
    if !okX {
      return Frac(0, 0), false;
    }
    var okY, sy := ClipAxis(y0, vy, yl, yh, sx);
    if !okY {
      return Frac(0, 0), false;
    }
    if sy.lo.n * sy.hi.d > sy.hi.n * sy.lo.d {
      return Frac(0, 0), false;
    }
    f, ok := sy.lo, true;
    if f.n > f.d {
      LessIsLess(Frac(1, 1), f);
      assert false;
    }
  }

  // ---- the best target ----

  lemma LessTrans(a: Frac, b: Frac, c: Frac)
    requires a.d > 0 && b.d > 0 && c.d > 0
    requires !Less(b, a) && !Less(c, b)
    ensures !Less(c, a)
    ensures Less(a, b) || Less(b, c) ==> Less(a, c)
  {
    LessIsLess(a, b);
    LessIsLess(b, a);
    LessIsLess(b, c);
    LessIsLess(c, b);
    LessIsLess(a, c);
    LessIsLess(c, a);
  }

  /** Earlier in the tick, or at the same instant with the lower ID. */
  predicate Ahead(f: Frac, id: ID, g: Frac, other: ID) {
    Less(f, g) || (Same(f, g) && id < other)
  }

  datatype Best = NoBest | Best(id: ID, f: Frac)

  /** b is the one entry of t ahead of all the others. */
  ghost predicate BestOf(t: map<ID, Frac>, b: Best) {
    if t == map[] then b == NoBest
    else b.Best? && b.id in t && t[b.id] == b.f && forall o | o in t && o != b.id :: Ahead(b.f, b.id, t[o], o)
  }

  ghost predicate Fractions(t: map<ID, Frac>) {
    forall id | id in t :: t[id].d > 0
  }

  function Improve(b: Best, id: ID, f: Frac): Best {
    if b == NoBest || Ahead(f, id, b.f, b.id) then Best(id, f) else b
  }

  lemma ImproveBest(t: map<ID, Frac>, b: Best, id: ID, f: Frac)
    requires Fractions(t) && BestOf(t, b) && id !in t && f.d > 0
    ensures Fractions(t[id := f]) && BestOf(t[id := f], Improve(b, id, f))
  {
    var t' := t[id := f];
    assert id in t';
    var b' := Improve(b, id, f);
    forall o | o in t' && o != b'.id
      ensures Ahead(b'.f, b'.id, t'[o], o)
    {
      if b != NoBest && b'.id == id && o != b.id {
        LessTrans(f, b.f, t[o]);
        LessIsLess(f, b.f);
        LessIsLess(b.f, t[o]);
        LessIsLess(f, t[o]);
      }
      if b != NoBest && b'.id != id && o == id {
        LessIsLess(f, b.f);
        LessIsLess(b.f, f);
      }
    }
  }

  lemma BestUnique(t: map<ID, Frac>, b: Best, c: Best)
    requires Fractions(t) && BestOf(t, b) && BestOf(t, c)
    ensures b == c
  {
    if t != map[] && b.id != c.id {
      assert Ahead(b.f, b.id, c.f, c.id) && Ahead(c.f, c.id, b.f, b.id);
      LessIsLess(b.f, c.f);
      LessIsLess(c.f, b.f);
    }
  }
}
