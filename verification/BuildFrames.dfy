/** What a slide shows while its builds play, one click at a time. */
module BuildFrames {
  import opened Engine
  import opened Sequences
  import opened Ops

  const SLIDE_WIDTH := 960.0
  const SLIDE_HEIGHT := 540.0

  /** The id of an object that has none. */
  const NO_ID: nat := 0xFFFF_FFFF_FFFF_FFFF

  datatype Box = Box(x: real, y: real, w: real, h: real)

  datatype FrameObject = FrameObject(what: SlideObject, opacity: real)

  // ---------------------------------------------------------------- geometry

  /** A circle stores its centre, everything else its corner. */
  function Bounds(o: SlideObject): Box {
    if o.Circle? then Box(o.x - o.r, o.y - o.r, o.r * 2.0, o.r * 2.0) else Box(o.x, o.y, o.w, o.h)
  }

  function AtOrigin(o: SlideObject, x: real, y: real): SlideObject {
    match o
    case Circle(_, _, r, rotation) => Circle(x + r, y + r, r, rotation)
    case TextBox(text, _, _, w, h, rotation, runs, body) => TextBox(text, x, y, w, h, rotation, runs, body)
    case Boxed(what, _, _, w, h, rotation) => Boxed(what, x, y, w, h, rotation)
  }

  /** `o` just beyond the slide's `edge`. */
  function Offstage(o: SlideObject, edge: Edge): SlideObject {
    var b := Bounds(o);
    match edge
    case Left => AtOrigin(o, -b.w, b.y)
    case Right => AtOrigin(o, SLIDE_WIDTH, b.y)
    case Top => AtOrigin(o, b.x, -b.h)
    case Bottom => AtOrigin(o, b.x, SLIDE_HEIGHT)
  }

  /** `amount` of the way from offstage to in place. */
  function Slid(o: SlideObject, edge: Edge, amount: real): SlideObject {
    var b, off := Bounds(o), Bounds(Offstage(o, edge));
    AtOrigin(o, off.x + (b.x - off.x) * amount, off.y + (b.y - off.y) * amount)
  }

  function Clamped(t: real): real {
    if t < 0.0 then 0.0 else if t > 1.0 then 1.0 else t
  }

  /** Slow in, slow out. */
  function Ease(t: real): real {
    var c := Clamped(t);
    if c < 0.5 then 4.0 * c * c * c else 1.0 - (2.0 - 2.0 * c) * (2.0 - 2.0 * c) * (2.0 - 2.0 * c) / 2.0
  }

  // ---------------------------------------------------------------- frames

  function FirstIn(builds: seq<Build>, id: nat): (r: Option<nat>)
    ensures r.Some? ==> r.value < |builds| && builds[r.value].target == id && !builds[r.value].out
    ensures r.Some? ==> forall j :: 0 <= j < r.value ==> builds[j].target != id || builds[j].out
    ensures r.None? ==> forall j :: 0 <= j < |builds| ==> builds[j].target != id || builds[j].out
  {
    if builds == [] then None
    else if builds[0].target == id && !builds[0].out then Some(0)
    else
      var rest := FirstIn(builds[1..], id);
      if rest.Some? then Some(rest.value + 1) else None
  }

  /** Some build before `done` takes object `id` out. */
  predicate TakenOut(builds: seq<Build>, id: nat, done: nat) {
    exists i :: 0 <= i < |builds| && i < done && builds[i].target == id && builds[i].out
  }

  /** Object `id` is on the slide once `done` builds have played. */
  predicate ShownAfter(builds: seq<Build>, id: nat, done: nat) {
    var first := FirstIn(builds, id);
    (first.None? || first.value < done) && !TakenOut(builds, id, done)
  }

  function IdAt(s: Slide, i: nat): nat {
    if i < |s.ids.objects| then s.ids.objects[i] else NO_ID
  }

  /** What shows of the slide's `i`-th object while build `step` plays, at `t`. */
  function Seen(s: Slide, i: nat, step: nat, t: real): Option<FrameObject>
    requires i < |s.objects|
  {
    var o, id := s.objects[i], IdAt(s, i);
    var builds := s.props.builds;
    if t > 0.0 && step < |builds| && builds[step].target == id then
      var b := builds[step];
      var amount := if b.out then 1.0 - Ease(t) else Ease(t);
      var f :=
        match b.effect
        case Appear => FrameObject(o, if (b.out && t < 1.0) || (!b.out && t > 0.0) then 1.0 else 0.0)
        case Dissolve => FrameObject(o, amount)
        case Move(edge) => FrameObject(Slid(o, edge, amount), 1.0);
      if f.opacity > 0.0 then Some(f) else None
    else if ShownAfter(builds, id, step) then Some(FrameObject(o, 1.0))
    else None
  }

  function FrameTo(s: Slide, n: nat, step: nat, t: real): seq<FrameObject>
    requires n <= |s.objects|
  {
    if n == 0 then []
    else
      var f := Seen(s, n - 1, step, t);
      FrameTo(s, n - 1, step, t) + if f.Some? then [f.value] else []
  }

  /** What the slide shows while build `step` plays, at `t` (0: just before
      it; 1: done), in stacking order. */
  function Frame(s: Slide, step: nat, t: real): seq<FrameObject> {
    FrameTo(s, |s.objects|, step, t)
  }

  // ---------------------------------------------------------------- pacing

  lemma EaseEnds()
    ensures Ease(0.0) == 0.0 && Ease(1.0) == 1.0
  {
  }

  lemma Cubes(a: real, b: real)
    requires 0.0 <= a <= b
    ensures 0.0 <= a * a <= b * b && 0.0 <= a * a * a <= b * b * b
  {
    assert a * a <= a * b && a * b <= b * b;
    assert a * a * a <= b * b * a && b * b * a <= b * b * b;
  }

  /** The pace in the first half and in the second. */
  lemma EaseHalves(t: real)
    ensures var c := Clamped(t); Ease(t) == if c < 0.5 then 4.0 * Cube(c) else 1.0 - Cube(2.0 - 2.0 * c) / 2.0
  {
    var m := 2.0 - 2.0 * Clamped(t);
    assert Cube(m) == m * m * m;
  }

  function Cube(a: real): real {
    a * a * a
  }

  lemma CubeRises(a: real, b: real)
    requires 0.0 <= a <= b
    ensures 0.0 <= Cube(a) <= Cube(b)
  {
    Cubes(a, b);
  }

  /** The pace never turns back, and stays between start and end. */
  lemma EaseRises(s: real, t: real)
    requires s <= t
    ensures 0.0 <= Ease(s) <= Ease(t) <= 1.0
  {
    hide Cube, Ease;
    var a, b := Clamped(s), Clamped(t);
    EaseHalves(s);
    EaseHalves(t);
    CubeAt();
    if b < 0.5 {
      CubeRises(0.0, a);
      CubeRises(a, b);
      CubeRises(b, 0.5);
    } else if a < 0.5 {
      CubeRises(0.0, a);
      CubeRises(a, 0.5);
      CubeRises(2.0 - 2.0 * b, 1.0);
    } else {
      CubeRises(0.0, 2.0 - 2.0 * b);
      CubeRises(2.0 - 2.0 * b, 2.0 - 2.0 * a);
      CubeRises(2.0 - 2.0 * a, 1.0);
    }
  }

  lemma CubeAt()
    ensures Cube(0.0) == 0.0 && Cube(0.5) == 0.125 && Cube(1.0) == 1.0
  {
  }

  // ---------------------------------------------------------------- one object, from step to step

  lemma InPlace(o: SlideObject, edge: Edge)
    ensures Slid(o, edge, 1.0) == o && Slid(o, edge, 0.0) == Offstage(o, edge)
  {
    var b, off := Bounds(o), Bounds(Offstage(o, edge));
    assert off.x + (b.x - off.x) * 1.0 == b.x && off.y + (b.y - off.y) * 1.0 == b.y;
    assert off.x + (b.x - off.x) * 0.0 == off.x && off.y + (b.y - off.y) * 0.0 == off.y;
  }

  // ---------------------------------------------------------------- what lies on the slide

  datatype Turn = Turn(cos: real, sin: real)

  /** The cosine and sine of an angle in degrees. */
  type Angles = real -> Turn

  predicate Unit(a: Turn) {
    a.cos * a.cos + a.sin * a.sin == 1.0
  }

  function CentreX(o: SlideObject): real {
    Bounds(o).x + Bounds(o).w / 2.0
  }

  function CentreY(o: SlideObject): real {
    Bounds(o).y + Bounds(o).h / 2.0
  }

  /** Where a point `dx`, `dy` from its centre is in the object's own box. */
  function OwnX(a: Turn, dx: real, dy: real): real {
    dx * a.cos + dy * a.sin
  }

  function OwnY(a: Turn, dx: real, dy: real): real {
    dy * a.cos - dx * a.sin
  }

  function Abs(a: real): real {
    if a < 0.0 then -a else a
  }

  /** The object draws over this point: its box turned about its centre, or
      its disc. */
  predicate Draws(angles: Angles, o: SlideObject, x: real, y: real) {
    if o.Circle? then (x - o.x) * (x - o.x) + (y - o.y) * (y - o.y) < o.r * o.r
    else
      var a, dx, dy := angles(o.rotation), x - CentreX(o), y - CentreY(o);
      -Abs(o.w) < 2.0 * OwnX(a, dx, dy) < Abs(o.w) && -Abs(o.h) < 2.0 * OwnY(a, dx, dy) < Abs(o.h)
  }

  ghost predicate OnSlide(angles: Angles, o: SlideObject) {
    exists x, y :: 0.0 < x < SLIDE_WIDTH && 0.0 < y < SLIDE_HEIGHT && Draws(angles, o, x, y)
  }

  lemma OthersStay(builds: seq<Build>, id: nat, step: nat)
    requires step < |builds| && builds[step].target != id
    ensures ShownAfter(builds, id, step + 1) <==> ShownAfter(builds, id, step)
  {
    if TakenOut(builds, id, step + 1) {
      var i :| 0 <= i < |builds| && i < step + 1 && builds[i].target == id && builds[i].out;
      assert i < step;
    }
    if TakenOut(builds, id, step) {
      var i :| 0 <= i < |builds| && i < step && builds[i].target == id && builds[i].out;
      assert i < step + 1;
    }
  }

  lemma TargetAfter(builds: seq<Build>, step: nat)
    requires step < |builds|
    ensures var b := builds[step];
            ShownAfter(builds, b.target, step + 1) <==> !b.out && !TakenOut(builds, b.target, step)
  {
    var b := builds[step];
    if TakenOut(builds, b.target, step) {
      var i :| 0 <= i < |builds| && i < step && builds[i].target == b.target && builds[i].out;
      assert i < step + 1;
    }
    if b.out {
      assert TakenOut(builds, b.target, step + 1);
    } else if TakenOut(builds, b.target, step + 1) {
      var i :| 0 <= i < |builds| && i < step + 1 && builds[i].target == b.target && builds[i].out;
      assert i < step;
    }
  }

  /** Whether the end of build `step` is the rest before the next: a build
      out, or one in of an object not taken out before. */
  predicate Settles(builds: seq<Build>, step: nat)
    requires step < |builds|
  {
    builds[step].out || !TakenOut(builds, builds[step].target, step)
  }

  /** What the end of build `step` shows of an object that the rest before the
      next does not: one moved out, where it was moved to; and one built in
      though it had been taken out. */
  function Remains(s: Slide, i: nat, step: nat): Option<SlideObject>
    requires i < |s.objects| && step < |s.props.builds|
  {
    var b := s.props.builds[step];
    if IdAt(s, i) != b.target then None
    else if b.out then (if b.effect.Move? then Some(Offstage(s.objects[i], b.effect.edge)) else None)
    else if TakenOut(s.props.builds, b.target, step) then Some(s.objects[i])
    else None
  }

  /** One object at the end of build `step`, and at rest before the next: the
      same, but for what remains. */
  lemma SeenStep(s: Slide, i: nat, step: nat)
    requires i < |s.objects| && step < |s.props.builds|
    ensures var end, rest := Seen(s, i, step, 1.0), Seen(s, i, step + 1, 0.0);
            if Remains(s, i, step).Some? then rest == None && end == Some(FrameObject(Remains(s, i, step).value, 1.0))
            else rest == end
  {
    hide Slid, Offstage, ShownAfter;
    var b := s.props.builds[step];
    EaseEnds();
    if IdAt(s, i) != b.target {
      OthersStay(s.props.builds, IdAt(s, i), step);
    } else {
      TargetAfter(s.props.builds, step);
      if b.effect.Move? {
        InPlace(s.objects[i], b.effect.edge);
      }
    }
  }

  // ---------------------------------------------------------------- the slide, from step to step

  /** What of a frame lies on the slide, at least in part. */
  ghost function InView(angles: Angles, frame: seq<FrameObject>): seq<FrameObject> {
    if frame == [] then []
    else InView(angles, frame[..|frame| - 1]) + if OnSlide(angles, frame[|frame| - 1].what) then [frame[|frame| - 1]] else []
  }

  lemma InViewMore(angles: Angles, frame: seq<FrameObject>, f: FrameObject)
    ensures InView(angles, frame + [f]) == InView(angles, frame) + if OnSlide(angles, f.what) then [f] else []
  {
    hide OnSlide;
    assert (frame + [f])[..|frame|] == frame;
  }

  /** Something remains in view of one of the first `n` objects. */
  ghost predicate RemainsInView(angles: Angles, s: Slide, n: nat, step: nat)
    requires n <= |s.objects| && step < |s.props.builds|
  {
    exists i :: 0 <= i < n && Remains(s, i, step).Some? && OnSlide(angles, Remains(s, i, step).value)
  }

  /** One object more: the frames grow alike, or by what remains. */
  lemma OneMore(angles: Angles, s: Slide, n: nat, step: nat)
    requires 0 < n <= |s.objects| && step < |s.props.builds|
    ensures var before, after := InView(angles, FrameTo(s, n - 1, step, 1.0)), InView(angles, FrameTo(s, n - 1, step + 1, 0.0));
            var now, next := InView(angles, FrameTo(s, n, step, 1.0)), InView(angles, FrameTo(s, n, step + 1, 0.0));
            if Remains(s, n - 1, step).Some? && OnSlide(angles, Remains(s, n - 1, step).value)
            then |now| == |before| + 1 && next == after
            else |now| - |before| == |next| - |after| && (before == after ==> now == next)
  {
    hide Seen, OnSlide, Remains, InView;
    SeenStep(s, n - 1, step);
    var end, rest := Seen(s, n - 1, step, 1.0), Seen(s, n - 1, step + 1, 0.0);
    var before, after := FrameTo(s, n - 1, step, 1.0), FrameTo(s, n - 1, step + 1, 0.0);
    Grown(angles, before, end);
    Grown(angles, after, rest);
    assert InView(angles, after) + [] == InView(angles, after);
  }

  ghost function Visible(angles: Angles, f: Option<FrameObject>): seq<FrameObject> {
    if f.Some? && OnSlide(angles, f.value.what) then [f.value] else []
  }

  lemma Grown(angles: Angles, frame: seq<FrameObject>, f: Option<FrameObject>)
    ensures InView(angles, frame + if f.Some? then [f.value] else []) == InView(angles, frame) + Visible(angles, f)
  {
    hide OnSlide;
    if f.Some? {
      InViewMore(angles, frame, f.value);
    } else {
      assert frame + [] == frame;
    }
  }

  lemma {:induction false} StepTo(angles: Angles, s: Slide, n: nat, step: nat)
    requires n <= |s.objects| && step < |s.props.builds|
    ensures var end, rest := InView(angles, FrameTo(s, n, step, 1.0)), InView(angles, FrameTo(s, n, step + 1, 0.0));
            if RemainsInView(angles, s, n, step) then |rest| < |end| else rest == end
  {
    hide Seen, OnSlide, Remains, InView;
    if n > 0 {
      StepTo(angles, s, n - 1, step);
      OneMore(angles, s, n, step);
    } else {
      NothingShown(angles);
    }
  }

  lemma NothingShown(angles: Angles)
    ensures InView(angles, []) == []
  {
  }

  /** Playing a build to its end shows the same on the slide as the rest before
      the next build exactly when nothing remains in view: no object moved out
      of the slide that still reaches into it, and none built in though it had
      been taken out before. */
  lemma PlayedIsRest(angles: Angles, s: Slide, step: nat)
    requires step < |s.props.builds|
    ensures InView(angles, Frame(s, step, 1.0)) == InView(angles, Frame(s, step + 1, 0.0))
            <==> !RemainsInView(angles, s, |s.objects|, step)
  {
    hide InView, RemainsInView;
    StepTo(angles, s, |s.objects|, step);
    assert Frame(s, step, 1.0) == FrameTo(s, |s.objects|, step, 1.0);
    assert Frame(s, step + 1, 0.0) == FrameTo(s, |s.objects|, step + 1, 0.0);
  }

  /** Each object has at most one build in and one out, the one in first. */
  ghost predicate InThenOut(builds: seq<Build>) {
    forall i, j :: 0 <= i < j < |builds| && builds[i].target == builds[j].target ==> !builds[i].out && builds[j].out
  }

  lemma InThenOutSettles(builds: seq<Build>, step: nat)
    requires InThenOut(builds) && step < |builds|
    ensures Settles(builds, step)
  {
  }

  /** `p` is `o` in everything but where it stands. */
  predicate Elsewhere(o: SlideObject, p: SlideObject) {
    match (o, p)
    case (Circle(_, _, r, rotation), Circle(_, _, r', rotation')) => r == r' && rotation == rotation'
    case (TextBox(text, _, _, w, h, rotation, runs, body), TextBox(text', _, _, w', h', rotation', runs', body')) =>
      text == text' && w == w' && h == h' && rotation == rotation' && runs == runs' && body == body'
    case (Boxed(what, _, _, w, h, rotation), Boxed(what', _, _, w', h', rotation')) =>
      what == what' && w == w' && h == h' && rotation == rotation'
    case _ => false
  }

  /** `p` has gone the part `away` of the way from `o`'s place straight out
      across the slide's `edge`. */
  predicate OnTheWay(o: SlideObject, p: SlideObject, edge: Edge, away: real) {
    var b, q := Bounds(o), Bounds(p);
    && Elsewhere(o, p)
    && match edge
       case Left => q.x == b.x - away * (b.x + b.w) && q.y == b.y
       case Right => q.x == b.x + away * (SLIDE_WIDTH - b.x) && q.y == b.y
       case Top => q.x == b.x && q.y == b.y - away * (b.y + b.h)
       case Bottom => q.x == b.x && q.y == b.y + away * (SLIDE_HEIGHT - b.y)
  }

  lemma PartBack(x: real, from: real, away: real, d: real)
    ensures d == x - from ==> from + (x - from) * (1.0 - away) == x - away * d
    ensures d == from - x ==> from + (x - from) * (1.0 - away) == x + away * d
  {
    if d == x - from {
      assert (x - from) * (1.0 - away) == d * (1.0 - away) == d - away * d;
    }
    if d == from - x {
      assert (x - from) * (1.0 - away) == (-d) * (1.0 - away) == away * d - d;
    }
  }

  lemma SlidOnTheWay(o: SlideObject, edge: Edge, away: real)
    ensures OnTheWay(o, Slid(o, edge, 1.0 - away), edge, away)
  {
    hide Slid, Elsewhere, Offstage, Bounds, AtOrigin;
    var b := Bounds(o);
    var off := Bounds(Offstage(o, edge));
    SlidTo(o, edge, 1.0 - away);
    OffTo(o, edge);
    PartBack(b.x, off.x, away, match edge case Left => b.x + b.w case Right => SLIDE_WIDTH - b.x case _ => 0.0);
    PartBack(b.y, off.y, away, match edge case Top => b.y + b.h case Bottom => SLIDE_HEIGHT - b.y case _ => 0.0);
  }

  lemma OffTo(o: SlideObject, edge: Edge)
    ensures var b, off := Bounds(o), Bounds(Offstage(o, edge));
            && off.x == (match edge case Left => -b.w case Right => SLIDE_WIDTH case _ => b.x)
            && off.y == (match edge case Top => -b.h case Bottom => SLIDE_HEIGHT case _ => b.y)
  {
  }

  lemma SlidTo(o: SlideObject, edge: Edge, amount: real)
    ensures var b, off := Bounds(o), Bounds(Offstage(o, edge));
            var q := Bounds(Slid(o, edge, amount));
            q.x == off.x + (b.x - off.x) * amount && q.y == off.y + (b.y - off.y) * amount
    ensures Elsewhere(o, Slid(o, edge, amount))
  {
    hide Offstage;
  }

  lemma EaseWithin(t: real)
    requires 0.0 < t < 1.0
    ensures 0.0 < Ease(t) < 1.0
  {
    hide Ease;
    EaseHalves(t);
    if t < 0.5 {
      CubeStrict(0.0, t);
      CubeStrict(t, 0.5);
    } else {
      CubeStrict(0.0, 2.0 - 2.0 * t);
      CubeRises(2.0 - 2.0 * t, 1.0);
    }
  }

  lemma CubeStrict(a: real, b: real)
    requires 0.0 <= a < b
    ensures Cube(a) < Cube(b)
  {
    assert a * a <= a * b && a * b < b * b;
    assert a * a * a <= b * b * a && b * b * a < b * b * b;
  }

  /** While a build plays, its object, at the place and as strong as the pace has
      it: moving along the straight line out across the build's own edge, or
      fading, or there at once (gone only at the end). The others stand as
      before the build. */
  lemma PartWay(s: Slide, i: nat, step: nat, t: real)
    requires i < |s.objects| && 0.0 < t < 1.0
    ensures var o, f := s.objects[i], Seen(s, i, step, t);
            if step < |s.props.builds| && s.props.builds[step].target == IdAt(s, i) then
              var b := s.props.builds[step];
              var away := if b.out then Ease(t) else 1.0 - Ease(t);
              && f.Some? && 0.0 < away < 1.0
              && match b.effect
                 case Appear => f.value == FrameObject(o, 1.0)
                 case Dissolve => f.value == FrameObject(o, 1.0 - away)
                 case Move(edge) => f.value.opacity == 1.0 && OnTheWay(o, f.value.what, edge, away)
            else f == Seen(s, i, step, 0.0)
  {
    hide Ease, Slid, OnTheWay;
    EaseWithin(t);
    if step < |s.props.builds| && s.props.builds[step].effect.Move? {
      var b := s.props.builds[step];
      SlidOnTheWay(s.objects[i], b.effect.edge, if b.out then Ease(t) else 1.0 - Ease(t));
    }
  }

  lemma {:induction false} FrameTimeless(s: Slide, n: nat, step: nat, t: real)
    requires n <= |s.objects| && step >= |s.props.builds|
    ensures FrameTo(s, n, step, t) == FrameTo(s, n, step, 0.0)
  {
    if n > 0 {
      FrameTimeless(s, n - 1, step, t);
    }
  }

  /** With every build played the slide no longer changes with time. */
  lemma PlayedOut(s: Slide, step: nat, t: real)
    requires step >= |s.props.builds|
    ensures Frame(s, step, t) == Frame(s, step, 0.0)
  {
    FrameTimeless(s, |s.objects|, step, t);
  }

  // ---------------------------------------------------------------- setting a build

  predicate IsBuild(b: Build, id: nat, out: bool) {
    b.target == id && b.out == out
  }

  function FirstBuild(builds: seq<Build>, id: nat, out: bool): (r: Option<nat>)
    ensures r.Some? ==> r.value < |builds| && IsBuild(builds[r.value], id, out)
    ensures r.None? ==> forall b :: b in builds ==> !IsBuild(b, id, out)
  {
    if builds == [] then None
    else if IsBuild(builds[0], id, out) then Some(0)
    else
      var rest := FirstBuild(builds[1..], id, out);
      if rest.Some? then Some(rest.value + 1) else None
  }

  function WithoutBuild(builds: seq<Build>, id: nat, out: bool): seq<Build> {
    if builds == [] then []
    else (if IsBuild(builds[0], id, out) then [] else [builds[0]]) + WithoutBuild(builds[1..], id, out)
  }

  /** Object `id`'s build in or out set to `effect`, or removed; a new one goes last. */
  function SetBuild(builds: seq<Build>, id: nat, out: bool, effect: Option<BuildEffect>): seq<Build> {
    var at := FirstBuild(builds, id, out);
    if at.Some? && effect.Some? then builds[at.value := builds[at.value].(effect := effect.value)]
    else if at.Some? then WithoutBuild(builds, id, out)
    else if effect.Some? then builds + [Build(id, effect.value, out)]
    else builds
  }

  /** No object has two builds in, or two out. */
  ghost predicate OneEach(builds: seq<Build>) {
    forall i, j :: 0 <= i < j < |builds| ==> builds[i].target != builds[j].target || builds[i].out != builds[j].out
  }

  lemma {:induction false} WithoutKeeps(builds: seq<Build>, id: nat, out: bool)
    requires OneEach(builds)
    ensures OneEach(WithoutBuild(builds, id, out))
    ensures forall b :: b in WithoutBuild(builds, id, out) <==> b in builds && !IsBuild(b, id, out)
  {
    if builds != [] {
      var rest := WithoutBuild(builds[1..], id, out);
      assert OneEach(builds[1..]);
      WithoutKeeps(builds[1..], id, out);
      assert forall b :: b in builds <==> b == builds[0] || b in builds[1..];
      if !IsBuild(builds[0], id, out) {
        forall j | 0 <= j < |rest|
          ensures builds[0].target != rest[j].target || builds[0].out != rest[j].out
        {
          assert rest[j] in builds[1..];
          var k :| 0 <= k < |builds[1..]| && builds[1..][k] == rest[j];
          assert builds[k + 1] == rest[j];
        }
      }
    }
  }

  lemma {:induction false} WithoutIs(builds: seq<Build>, id: nat, out: bool, k: nat)
    requires k < |builds| && forall j :: 0 <= j < |builds| ==> (IsBuild(builds[j], id, out) <==> j == k)
    ensures WithoutBuild(builds, id, out) == builds[..k] + builds[k + 1..]
  {
    if k > 0 {
      WithoutIs(builds[1..], id, out, k - 1);
      assert builds[..k] == [builds[0]] + builds[1..][..k - 1];
    } else {
      WithoutNone(builds[1..], id, out);
    }
  }

  lemma {:induction false} WithoutNone(builds: seq<Build>, id: nat, out: bool)
    requires forall j :: 0 <= j < |builds| ==> !IsBuild(builds[j], id, out)
    ensures WithoutBuild(builds, id, out) == builds
  {
    if builds != [] {
      WithoutNone(builds[1..], id, out);
    }
  }

  /** Setting a build keeps every object to one build in and one out; the
      object's own is then as set, and no other build is touched, nor when it
      plays: one set anew plays at its old click, a new one last, and one taken
      out lets those after it move up. */
  lemma SetBuildKeeps(builds: seq<Build>, id: nat, out: bool, effect: Option<BuildEffect>)
    requires OneEach(builds)
    ensures var after := SetBuild(builds, id, out, effect);
            && OneEach(after)
            && (forall b :: !IsBuild(b, id, out) ==> (b in after <==> b in builds))
            && (forall b :: b in after && IsBuild(b, id, out) ==> effect == Some(b.effect))
            && (effect.Some? ==> Build(id, effect.value, out) in after)
            && (if k: nat :| k < |builds| && IsBuild(builds[k], id, out) then
                  if effect.Some? then |after| == |builds| && after[..k] == builds[..k] && after[k + 1..] == builds[k + 1..]
                  else after == builds[..k] + builds[k + 1..]
                else if effect.Some? then |after| == |builds| + 1 && after[..|builds|] == builds
                else after == builds)
  {
    var at := FirstBuild(builds, id, out);
    var after := SetBuild(builds, id, out, effect);
    if at.Some? && effect.None? {
      WithoutKeeps(builds, id, out);
      WithoutIs(builds, id, out, at.value);
    } else if at.Some? {
      assert after[at.value] == Build(id, effect.value, out);
      forall b | !IsBuild(b, id, out)
        ensures b in after <==> b in builds
      {
        if b in builds {
          var k :| 0 <= k < |builds| && builds[k] == b;
          assert after[k] == b;
        }
      }
    } else if effect.Some? {
      assert forall j :: 0 <= j < |builds| ==> builds[j] in builds;
    }
  }
}
