/** When an object moved off the slide is off it, however it is turned. */
module SlideEdges {
  import opened Engine
  import opened Sequences
  import opened Ops
  import opened BuildFrames

  /** How wide, and how tall, the box is as turned. */
  function TurnedWidth(a: Turn, o: SlideObject): real {
    Abs(Bounds(o).w) * Abs(a.cos) + Abs(Bounds(o).h) * Abs(a.sin)
  }

  function TurnedHeight(a: Turn, o: SlideObject): real {
    Abs(Bounds(o).w) * Abs(a.sin) + Abs(Bounds(o).h) * Abs(a.cos)
  }

  predicate Sideways(edge: Edge) {
    edge == Left || edge == Right
  }

  /** Turned, the object reaches no further towards `edge` than its box does; a
      disc is as wide every way. */
  predicate Clears(a: Turn, o: SlideObject, edge: Edge) {
    if o.Circle? then o.r >= 0.0
    else if Sideways(edge) then TurnedWidth(a, o) <= o.w
    else TurnedHeight(a, o) <= o.h
  }

  // ---------------------------------------------------------------- what is drawn lies within

  lemma Scaled(a: real, b: real, w: real)
    requires -w < 2.0 * a < w
    ensures -(w * Abs(b)) <= 2.0 * (a * b) <= w * Abs(b)
  {
    var p := 2.0 * a;
    assert 2.0 * (a * b) == p * b;
    if b >= 0.0 {
      assert (w - p) * b >= 0.0 && (w + p) * b >= 0.0;
    } else {
      assert (w - p) * (-b) >= 0.0 && (w + p) * (-b) >= 0.0;
    }
  }

  lemma Whole(c: real, s: real, d: real)
    requires c * c + s * s == 1.0
    ensures d * (c * c) + d * (s * s) == d
  {
    assert d * (c * c) + d * (s * s) == d * (c * c + s * s);
  }

  lemma Spread(dx: real, dy: real, c: real, s: real)
    ensures (dx * c + dy * s) * c - (dy * c - dx * s) * s == dx * (c * c) + dx * (s * s)
    ensures (dx * c + dy * s) * s + (dy * c - dx * s) * c == dy * (c * c) + dy * (s * s)
  {
  }

  /** The way back from the object's own box. */
  lemma FromOwn(a: Turn, dx: real, dy: real)
    requires Unit(a)
    ensures var u, v := OwnX(a, dx, dy), OwnY(a, dx, dy); dx == u * a.cos - v * a.sin && dy == u * a.sin + v * a.cos
  {
    Spread(dx, dy, a.cos, a.sin);
    Whole(a.cos, a.sin, dx);
    Whole(a.cos, a.sin, dy);
  }

  lemma Turned(u: real, v: real, c: real, s: real)
    ensures (u * c - v * s) * c + (u * s + v * c) * s == u * (c * c) + u * (s * s)
    ensures (u * s + v * c) * c - (u * c - v * s) * s == v * (c * c) + v * (s * s)
  {
  }

  /** The step `dx`, `dy` on the slide is `u`, `v` in the object's own box. */
  predicate Rotated(c: real, s: real, u: real, v: real, dx: real, dy: real) {
    dx == u * c - v * s && dy == u * s + v * c
  }

  /** And into it. */
  lemma IntoOwn(a: Turn, u: real, v: real, dx: real, dy: real)
    requires Unit(a) && Rotated(a.cos, a.sin, u, v, dx, dy)
    ensures OwnX(a, dx, dy) == u && OwnY(a, dx, dy) == v
  {
    Turned(u, v, a.cos, a.sin);
    Whole(a.cos, a.sin, u);
    Whole(a.cos, a.sin, v);
  }

  lemma Extents(u: real, v: real, c: real, s: real, w: real, h: real)
    requires -w < 2.0 * u < w && -h < 2.0 * v < h
    ensures -(w * Abs(c) + h * Abs(s)) <= 2.0 * (u * c - v * s) <= w * Abs(c) + h * Abs(s)
    ensures -(w * Abs(s) + h * Abs(c)) <= 2.0 * (u * s + v * c) <= w * Abs(s) + h * Abs(c)
  {
    hide Abs;
    Scaled(u, c, w);
    Scaled(v, s, h);
    Scaled(u, s, w);
    Scaled(v, c, h);
  }

  /** Whatever is drawn lies within the turned box's extents. */
  lemma DrawnWithin(angles: Angles, o: SlideObject, x: real, y: real)
    requires !o.Circle? && Unit(angles(o.rotation)) && Draws(angles, o, x, y)
    ensures -TurnedWidth(angles(o.rotation), o) <= 2.0 * (x - CentreX(o)) <= TurnedWidth(angles(o.rotation), o)
    ensures -TurnedHeight(angles(o.rotation), o) <= 2.0 * (y - CentreY(o)) <= TurnedHeight(angles(o.rotation), o)
  {
    hide Abs, Unit, OwnX, OwnY;
    var a, dx, dy := angles(o.rotation), x - CentreX(o), y - CentreY(o);
    FromOwn(a, dx, dy);
    Extents(OwnX(a, dx, dy), OwnY(a, dx, dy), a.cos, a.sin, Abs(o.w), Abs(o.h));
  }

  lemma BiggerSquare(a: real, r: real)
    requires r >= 0.0 && (a >= r || a <= -r)
    ensures a * a >= r * r
  {
    if a >= r {
      assert (a - r) * (a + r) >= 0.0;
    } else {
      assert (-a - r) * (r - a) >= 0.0;
    }
  }

  lemma SmallerSquare(a: real, r: real)
    requires r >= 0.0
    ensures a * a < r * r ==> -r < a < r
  {
    if a >= r || a <= -r {
      BiggerSquare(a, r);
    }
  }

  lemma DiscWithin(o: SlideObject, x: real, y: real)
    requires o.Circle? && o.r >= 0.0 && (x - o.x) * (x - o.x) + (y - o.y) * (y - o.y) < o.r * o.r
    ensures -o.r < x - o.x < o.r && -o.r < y - o.y < o.r
  {
    assert (x - o.x) * (x - o.x) >= 0.0 && (y - o.y) * (y - o.y) >= 0.0;
    SmallerSquare(x - o.x, o.r);
    SmallerSquare(y - o.y, o.r);
  }

  lemma OffstageIs(o: SlideObject, edge: Edge)
    ensures var f := Offstage(o, edge);
            && f.rotation == o.rotation && f.Circle? == o.Circle?
            && Bounds(f).w == Bounds(o).w && Bounds(f).h == Bounds(o).h
            && (!o.Circle? ==> f.w == o.w && f.h == o.h) && (o.Circle? ==> f.r == o.r)
            && Bounds(f).x == (if edge == Left then -Bounds(o).w else if edge == Right then SLIDE_WIDTH else Bounds(o).x)
            && Bounds(f).y == (if edge == Top then -Bounds(o).h else if edge == Bottom then SLIDE_HEIGHT else Bounds(o).y)
  {
  }

  lemma SameTurned(a: Turn, o: SlideObject, f: SlideObject)
    requires Bounds(f).w == Bounds(o).w && Bounds(f).h == Bounds(o).h
    ensures TurnedWidth(a, f) == TurnedWidth(a, o) && TurnedHeight(a, f) == TurnedHeight(a, o)
  {
  }

  lemma OutOfReach(angles: Angles, o: SlideObject, edge: Edge, x: real, y: real)
    requires Unit(angles(o.rotation)) && Clears(angles(o.rotation), o, edge)
    ensures Draws(angles, Offstage(o, edge), x, y) ==> !(0.0 < x < SLIDE_WIDTH && 0.0 < y < SLIDE_HEIGHT)
  {
    hide Abs, Unit, Offstage, TurnedWidth, TurnedHeight, OwnX, OwnY;
    var f := Offstage(o, edge);
    OffstageIs(o, edge);
    SameTurned(angles(o.rotation), o, f);
    if Draws(angles, f, x, y) {
      if o.Circle? {
        DiscWithin(f, x, y);
      } else {
        DrawnWithin(angles, f, x, y);
      }
    }
  }

  /** An object that reaches no further than its box is off the slide. */
  lemma OffstageHidden(angles: Angles, o: SlideObject, edge: Edge)
    requires Unit(angles(o.rotation)) && Clears(angles(o.rotation), o, edge)
    ensures !OnSlide(angles, Offstage(o, edge))
  {
    hide Abs, Unit, Offstage, Draws, Clears;
    forall x, y | Draws(angles, Offstage(o, edge), x, y)
      ensures !(0.0 < x < SLIDE_WIDTH && 0.0 < y < SLIDE_HEIGHT)
    {
      OutOfReach(angles, o, edge, x, y);
    }
  }

  // ---------------------------------------------------------------- a corner that reaches in

  function Sign(a: real): real {
    if a < 0.0 then -1.0 else 1.0
  }

  lemma SignAbs(a: real)
    ensures Sign(a) * a == Abs(a) && (Sign(a) == 1.0 || Sign(a) == -1.0)
  {
  }

  lemma Bounded(p: real, a: real, m: real)
    requires p >= 0.0 && -m <= a <= m
    ensures -(p * m) <= p * a <= p * m
  {
    assert p * (m - a) >= 0.0 && p * (m + a) >= 0.0;
  }

  lemma SignBounds(g: real, a: real)
    ensures -Abs(a) <= Sign(g) * a <= Abs(a)
  {
  }

  /** The corner furthest along x: `p` and `q` out from the centre in its own box. */
  lemma Corner(c: real, s: real, p: real, q: real) returns (u: real, v: real)
    requires p >= 0.0 && q >= 0.0
    ensures (u == p || u == -p) && (v == q || v == -q)
    ensures u * c - v * s == p * Abs(c) + q * Abs(s)
    ensures -(p * Abs(s) + q * Abs(c)) <= u * s + v * c <= p * Abs(s) + q * Abs(c)
  {
    u, v := Sign(c) * p, -(Sign(s) * q);
    SignAbs(c);
    SignAbs(s);
    assert u * c == p * (Sign(c) * c) && v * s == -(q * (Sign(s) * s));
    assert u * s == p * (Sign(c) * s) && v * c == -(q * (Sign(s) * c));
    SignBounds(c, s);
    SignBounds(s, c);
    Bounded(p, Sign(c) * s, Abs(s));
    Bounded(q, Sign(s) * c, Abs(c));
  }

  predicate Spans(c: real, s: real, w: real, h: real, all: real) {
    all == w * Abs(c) + h * Abs(s)
  }

  /** And the one opposite. */
  lemma CornerOn(c: real, s: real, p: real, q: real, wide: real, tall: real, side: real)
      returns (u: real, v: real, dx: real, dy: real)
    requires p >= 0.0 && q >= 0.0 && (side == 1.0 || side == -1.0)
    requires Spans(c, s, p, q, wide) && Spans(s, c, p, q, tall)
    ensures (u == p || u == -p) && (v == q || v == -q)
    ensures Rotated(c, s, u, v, dx, dy)
    ensures dx == (if side == 1.0 then wide else -wide) && -tall <= dy <= tall
  {
    hide Abs;
    u, v := Corner(c, s, p, q);
    dx, dy := u * c - v * s, u * s + v * c;
    if side != 1.0 {
      Opposite(u, v, c, s);
      u, v, dx, dy := -u, -v, -dx, -dy;
    }
  }

  lemma Opposite(u: real, v: real, c: real, s: real)
    ensures (-u) * c - (-v) * s == -(u * c - v * s) && (-u) * s + (-v) * c == -(u * s + v * c)
  {
  }

  lemma DrawsAt(angles: Angles, f: SlideObject, a: Turn, u: real, v: real, x: real, y: real)
    requires !f.Circle? && a == angles(f.rotation) && Unit(a) && -f.w < 2.0 * u < f.w && -f.h < 2.0 * v < f.h
    requires Rotated(a.cos, a.sin, u, v, x - CentreX(f), y - CentreY(f))
    ensures Draws(angles, f, x, y)
  {
    hide Unit, OwnX, OwnY, Rotated;
    IntoOwn(a, u, v, x - CentreX(f), y - CentreY(f));
  }

  /** Part of the way to that corner is drawn: `t` of it, on side `side`. */
  lemma CornerDrawn(angles: Angles, f: SlideObject, a: Turn, side: real, t: real, wide: real, tall: real) returns (x: real, y: real)
    requires wide == t * TurnedWidth(a, f) && tall == t * TurnedHeight(a, f)
    requires !f.Circle? && a == angles(f.rotation) && Unit(a) && f.w > 0.0 && f.h > 0.0
    requires 0.0 <= t < 1.0 && (side == 1.0 || side == -1.0)
    ensures Draws(angles, f, x, y)
    ensures 2.0 * (x - CentreX(f)) == (if side == 1.0 then wide else -wide) && -tall <= 2.0 * (y - CentreY(f)) <= tall
  {
    hide Unit, Draws, Rotated, Spans, TurnedWidth, TurnedHeight, CentreX, CentreY;
    BoxTurned(a, f);
    var p := Part(t, f.w);
    var q := Part(t, f.h);
    Halves(t, f.w, f.h, p, q, a.cos, a.sin, TurnedWidth(a, f), wide);
    Halves(t, f.w, f.h, p, q, a.sin, a.cos, TurnedHeight(a, f), tall);
    var u, v, dx, dy := CornerOn(a.cos, a.sin, p, q, wide / 2.0, tall / 2.0, side);
    x, y := CentreX(f) + dx, CentreY(f) + dy;
    assert x - CentreX(f) == dx && y - CentreY(f) == dy;
    DrawsAt(angles, f, a, u, v, x, y);
  }

  lemma BoxTurned(a: Turn, f: SlideObject)
    requires !f.Circle? && f.w > 0.0 && f.h > 0.0
    ensures Spans(a.cos, a.sin, f.w, f.h, TurnedWidth(a, f)) && Spans(a.sin, a.cos, f.w, f.h, TurnedHeight(a, f))
  {
  }

  lemma Part(t: real, w: real) returns (p: real)
    requires 0.0 <= t < 1.0 && w > 0.0
    ensures p == t * (w / 2.0) && 0.0 <= p && 2.0 * p < w
  {
    p := t * (w / 2.0);
    assert (1.0 - t) * w > 0.0;
    assert 2.0 * p == t * w;
  }

  lemma HalfOf(t: real, w: real, m: real, p: real)
    requires p == t * (w / 2.0)
    ensures 2.0 * (p * m) == t * (w * m)
  {
    assert 2.0 * p == t * w;
    assert (2.0 * p) * m == (t * w) * m;
  }

  lemma Halves(t: real, w: real, h: real, p: real, q: real, c: real, s: real, all: real, part: real)
    requires Spans(c, s, w, h, all) && p == t * (w / 2.0) && q == t * (h / 2.0) && part == t * all
    ensures Spans(c, s, p, q, part / 2.0)
  {
    var m, n := Abs(c), Abs(s);
    HalfOf(t, w, m, p);
    HalfOf(t, h, n, q);
    assert t * all == t * (w * m) + t * (h * n);
  }

  lemma Quarter(c: real, s: real, u: real, v: real, dx: real, dy: real)
    requires Rotated(s, -c, u, v, dy, -dx)
    ensures Rotated(c, s, u, v, dx, dy)
  {
  }

  lemma SpansTurned(c: real, s: real, w: real, h: real, all: real)
    ensures Spans(-c, s, w, h, all) <==> Spans(c, s, w, h, all)
    ensures Spans(c, -s, w, h, all) <==> Spans(c, s, w, h, all)
  {
    assert Abs(-c) == Abs(c) && Abs(-s) == Abs(s);
  }

  lemma CornerUp(c: real, s: real, p: real, q: real, wide: real, tall: real, side: real)
      returns (u: real, v: real, dx: real, dy: real)
    requires p >= 0.0 && q >= 0.0 && (side == 1.0 || side == -1.0)
    requires Spans(c, s, p, q, wide) && Spans(s, c, p, q, tall)
    ensures (u == p || u == -p) && (v == q || v == -q)
    ensures Rotated(c, s, u, v, dx, dy)
    ensures dy == (if side == 1.0 then tall else -tall) && -wide <= dx <= wide
  {
    hide Spans, Rotated;
    SpansTurned(s, c, p, q, tall);
    SpansTurned(c, s, p, q, wide);
    var back: real;
    u, v, dy, back := CornerOn(s, -c, p, q, tall, wide, side);
    dx := -back;
    assert -dx == back;
    Quarter(c, s, u, v, dx, dy);
  }

  /** So is part of the way to the corner furthest along y. */
  lemma CornerDrawnUp(angles: Angles, f: SlideObject, a: Turn, side: real, t: real, wide: real, tall: real) returns (x: real, y: real)
    requires wide == t * TurnedWidth(a, f) && tall == t * TurnedHeight(a, f)
    requires !f.Circle? && a == angles(f.rotation) && Unit(a) && f.w > 0.0 && f.h > 0.0
    requires 0.0 <= t < 1.0 && (side == 1.0 || side == -1.0)
    ensures Draws(angles, f, x, y)
    ensures 2.0 * (y - CentreY(f)) == (if side == 1.0 then tall else -tall) && -wide <= 2.0 * (x - CentreX(f)) <= wide
  {
    hide Unit, Draws, Rotated, Spans, TurnedWidth, TurnedHeight, CentreX, CentreY;
    BoxTurned(a, f);
    var p := Part(t, f.w);
    var q := Part(t, f.h);
    Halves(t, f.w, f.h, p, q, a.cos, a.sin, TurnedWidth(a, f), wide);
    Halves(t, f.w, f.h, p, q, a.sin, a.cos, TurnedHeight(a, f), tall);
    var u, v, dx, dy := CornerUp(a.cos, a.sin, p, q, wide / 2.0, tall / 2.0, side);
    x, y := CentreX(f) + dx, CentreY(f) + dy;
    assert x - CentreX(f) == dx && y - CentreY(f) == dy;
    DrawsAt(angles, f, a, u, v, x, y);
  }

  // ---------------------------------------------------------------- exactly when

  /** Turned, the object stands on the slide along the edge it is moved to. */
  predicate WithinAlong(a: Turn, o: SlideObject, edge: Edge) {
    if Sideways(edge) then
      TurnedHeight(a, o) <= 2.0 * CentreY(o) && 2.0 * CentreY(o) + TurnedHeight(a, o) <= 2.0 * SLIDE_HEIGHT
    else
      TurnedWidth(a, o) <= 2.0 * CentreX(o) && 2.0 * CentreX(o) + TurnedWidth(a, o) <= 2.0 * SLIDE_WIDTH
  }

  lemma SomeSpan(a: Turn, f: SlideObject)
    requires !f.Circle? && Unit(a) && f.w > 0.0 && f.h > 0.0
    ensures TurnedWidth(a, f) > 0.0 && TurnedHeight(a, f) > 0.0
  {
    var m, n := Abs(a.cos), Abs(a.sin);
    assert m > 0.0 || n > 0.0;
    assert m >= 0.0 && n >= 0.0 && f.w * m >= 0.0 && f.h * n >= 0.0 && f.w * n >= 0.0 && f.h * m >= 0.0;
    if m > 0.0 {
      assert f.w * m > 0.0 && f.h * m > 0.0;
    } else {
      assert f.w * n > 0.0 && f.h * n > 0.0;
    }
  }

  /** How far in to go: past the box, short of the corner. */
  lemma HowFar(w: real, wide: real, room: real, tall: real) returns (t: real, deep: real, high: real)
    requires w > 0.0 && wide > w && room > 0.0 && tall > 0.0
    ensures 0.0 <= t < 1.0 && w + 2.0 * deep == t * wide && 0.0 < deep < room && 0.0 <= high < tall && high == t * tall
  {
    deep := (if wide - w < room then wide - w else room) / 4.0;
    t := Ratio(w + 2.0 * deep, wide);
    high := t * tall;
    Rest(t, tall);
    Product(t, tall);
    Product(1.0 - t, tall);
  }

  lemma Product(a: real, b: real)
    requires a > 0.0 && b > 0.0
    ensures a * b > 0.0
  {
  }

  lemma AtLeast(t: real, wide: real)
    requires t >= 1.0 && wide > 0.0
    ensures t * wide >= wide
  {
    assert (t - 1.0) * wide >= 0.0;
  }

  lemma Below(t: real, wide: real, x: real)
    requires wide > 0.0 && t * wide == x && 0.0 < x < wide
    ensures 0.0 < t < 1.0
  {
    if t >= 1.0 {
      AtLeast(t, wide);
    } else if t <= 0.0 {
      NotPositive(t, wide);
    }
  }

  lemma Ratio(x: real, wide: real) returns (t: real)
    requires 0.0 < x < wide
    ensures 0.0 < t < 1.0 && x == t * wide
  {
    t := x / wide;
    Below(t, wide, x);
  }

  lemma Rest(t: real, wide: real)
    ensures (1.0 - t) * wide == wide - t * wide
  {
  }

  lemma NotPositive(p: real, b: real)
    requires b > 0.0 && p <= 0.0
    ensures p * b <= 0.0
  {
  }

  lemma SameCentre(o: SlideObject, f: SlideObject, edge: Edge)
    requires f == Offstage(o, edge)
    ensures if Sideways(edge) then CentreY(f) == CentreY(o) else CentreX(f) == CentreX(o)
  {
  }

  lemma OffstageShowsSideways(angles: Angles, o: SlideObject, edge: Edge)
    requires !o.Circle? && Unit(angles(o.rotation)) && o.w > 0.0 && o.h > 0.0 && Sideways(edge)
    requires WithinAlong(angles(o.rotation), o, edge) && !Clears(angles(o.rotation), o, edge)
    ensures OnSlide(angles, Offstage(o, edge))
  {
    hide Unit, Draws, TurnedWidth, TurnedHeight, Offstage;
    var f, a := Offstage(o, edge), angles(o.rotation);
    OffstageIs(o, edge);
    SameTurned(a, o, f);
    SomeSpan(a, f);
    var t, deep, high := HowFar(o.w, TurnedWidth(a, f), SLIDE_WIDTH, TurnedHeight(a, f));
    var x, y := CornerDrawn(angles, f, a, if edge == Left then 1.0 else -1.0, t, o.w + 2.0 * deep, high);
    SameCentre(o, f, edge);
    assert 0.0 < x < SLIDE_WIDTH;
    assert 0.0 < y < SLIDE_HEIGHT;
  }

  lemma OffstageShowsUpright(angles: Angles, o: SlideObject, edge: Edge)
    requires !o.Circle? && Unit(angles(o.rotation)) && o.w > 0.0 && o.h > 0.0 && !Sideways(edge)
    requires WithinAlong(angles(o.rotation), o, edge) && !Clears(angles(o.rotation), o, edge)
    ensures OnSlide(angles, Offstage(o, edge))
  {
    hide Unit, Draws, TurnedWidth, TurnedHeight, Offstage;
    var f, a := Offstage(o, edge), angles(o.rotation);
    OffstageIs(o, edge);
    SameTurned(a, o, f);
    SomeSpan(a, f);
    var t, deep, high := HowFar(o.h, TurnedHeight(a, f), SLIDE_HEIGHT, TurnedWidth(a, f));
    var x, y := CornerDrawnUp(angles, f, a, if edge == Top then 1.0 else -1.0, t, high, o.h + 2.0 * deep);
    SameCentre(o, f, edge);
    assert 0.0 < y < SLIDE_HEIGHT;
    assert 0.0 < x < SLIDE_WIDTH;
  }

  /** Moved to an edge it stands at, an object is off the slide exactly when,
      turned as it is, it reaches no further that way than its box. */
  lemma OffstageExact(angles: Angles, o: SlideObject, edge: Edge)
    requires !o.Circle? && Unit(angles(o.rotation)) && o.w > 0.0 && o.h > 0.0 && WithinAlong(angles(o.rotation), o, edge)
    ensures OnSlide(angles, Offstage(o, edge)) <==> !Clears(angles(o.rotation), o, edge)
  {
    hide Unit, Draws, Clears, WithinAlong, OnSlide, Offstage;
    if Clears(angles(o.rotation), o, edge) {
      OffstageHidden(angles, o, edge);
    } else if Sideways(edge) {
      OffstageShowsSideways(angles, o, edge);
    } else {
      OffstageShowsUpright(angles, o, edge);
    }
  }

  /** An object that is not turned always clears the edge. */
  lemma UprightClears(a: Turn, o: SlideObject, edge: Edge)
    requires a == Turn(1.0, 0.0) && Bounds(o).w >= 0.0 && Bounds(o).h >= 0.0
    ensures Clears(a, o, edge) && Unit(a)
  {
  }

  // ---------------------------------------------------------------- the frames

  /** What the build moves out clears its edge. */
  ghost predicate MovesClear(angles: Angles, s: Slide, step: nat)
    requires step < |s.props.builds|
  {
    var b := s.props.builds[step];
    b.out && b.effect.Move? ==>
      forall i :: 0 <= i < |s.objects| && IdAt(s, i) == b.target ==>
        Unit(angles(s.objects[i].rotation)) && Clears(angles(s.objects[i].rotation), s.objects[i], b.effect.edge)
  }

  /** An object build `step` names has a place in view. */
  ghost predicate TargetInView(angles: Angles, s: Slide, step: nat)
    requires step < |s.props.builds|
  {
    exists i :: 0 <= i < |s.objects| && IdAt(s, i) == s.props.builds[step].target && OnSlide(angles, s.objects[i])
  }

  /** Where it does, the end of a build is the next one's rest exactly when the
      build is one out, or its object had not been taken out before, or has no
      place in view. */
  lemma PlayedClear(angles: Angles, s: Slide, step: nat)
    requires step < |s.props.builds| && MovesClear(angles, s, step)
    ensures InView(angles, Frame(s, step, 1.0)) == InView(angles, Frame(s, step + 1, 0.0))
            <==> Settles(s.props.builds, step) || !TargetInView(angles, s, step)
  {
    hide InView, Frame, OnSlide, Clears, Unit, Offstage;
    PlayedIsRest(angles, s, step);
    var b := s.props.builds[step];
    forall i | 0 <= i < |s.objects| && Remains(s, i, step).Some?
      ensures b.out ==> !OnSlide(angles, Remains(s, i, step).value)
      ensures !b.out ==> IdAt(s, i) == b.target && Remains(s, i, step) == Some(s.objects[i]) && !Settles(s.props.builds, step)
    {
      if b.out {
        OffstageHidden(angles, s.objects[i], b.effect.edge);
      }
    }
    if !b.out && TakenOut(s.props.builds, b.target, step) && TargetInView(angles, s, step) {
      var i :| 0 <= i < |s.objects| && IdAt(s, i) == b.target && OnSlide(angles, s.objects[i]);
      assert Remains(s, i, step) == Some(s.objects[i]);
    }
  }

  /** A tall box turned on its side and moved out to the left still lies across
      ninety units of the slide; at rest it is gone. */
  lemma TurnedStays(angles: Angles, s: Slide, step: nat, i: nat)
    requires step < |s.props.builds| && i < |s.objects| && IdAt(s, i) == s.props.builds[step].target
    requires s.props.builds[step].out && s.props.builds[step].effect == Move(Left)
    requires var o := s.objects[i]; !o.Circle? && o.w == 20.0 && o.h == 200.0 && 10.0 <= o.y + 100.0 <= SLIDE_HEIGHT - 10.0
    requires angles(s.objects[i].rotation) == Turn(0.0, 1.0)
    ensures OnSlide(angles, Offstage(s.objects[i], Left))
    ensures InView(angles, Frame(s, step, 1.0)) != InView(angles, Frame(s, step + 1, 0.0))
  {
    hide InView, Frame, OnSlide, Draws, Offstage;
    var o := s.objects[i];
    OffstageExact(angles, o, Left);
    PlayedIsRest(angles, s, step);
    assert Remains(s, i, step) == Some(Offstage(o, Left));
  }
}
