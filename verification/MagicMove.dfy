/** Which objects two slides share, and what the move between them shows. */
module MagicMove {
  import opened Engine
  import opened Sequences
  import opened BuildFrames

  /** What makes two objects the same: given, as it may read a picture's bytes. */
  type Identity = SlideObject -> string

  datatype Pair = Pair(from: nat, to: nat)

  /** The square of the distance between two objects' centres. */
  function Distance(a: SlideObject, b: SlideObject): real {
    (CentreX(a) - CentreX(b)) * (CentreX(a) - CentreX(b)) + (CentreY(a) - CentreY(b)) * (CentreY(a) - CentreY(b))
  }

  /** `f` may be the counterpart of `o`: not used, and the same object. */
  predicate Free(from: seq<SlideObject>, used: seq<bool>, id: Identity, o: SlideObject, f: int)
    requires |used| == |from|
  {
    0 <= f < |from| && !used[f] && id(from[f]) == id(o)
  }

  /** `f` is the nearest counterpart of `o` that is free, the first of equals. */
  ghost predicate Nearest(from: seq<SlideObject>, used: seq<bool>, id: Identity, o: SlideObject, f: nat)
    requires |used| == |from|
  {
    && Free(from, used, id, o, f)
    && forall g :: Free(from, used, id, o, g) ==>
         Distance(from[f], o) <= Distance(from[g], o) && (g < f ==> Distance(from[f], o) < Distance(from[g], o))
  }

  lemma SquareUp(c: real, d: real)
    requires 0.0 <= c < d
    ensures c * c < d * d
  {
    var e := d - c;
    assert d * d == c * c + 2.0 * (c * e) + e * e;
    assert c * e >= 0.0;
    assert e * e > 0.0;
  }

  lemma Squares(a: real, b: real)
    ensures Abs(a) <= Abs(b) <==> a * a <= b * b
  {
    var c, d := Abs(a), Abs(b);
    assert c * c == a * a && d * d == b * b;
    if c < d {
      SquareUp(c, d);
    } else if d < c {
      SquareUp(d, c);
    }
  }

  /** Of the counterparts that are free, none is nearer across and nearer down,
      nor as near one way and nearer the other, and none as near both ways stands
      before it. */
  lemma NoneNearer(from: seq<SlideObject>, used: seq<bool>, id: Identity, o: SlideObject, f: nat, g: nat)
    requires |used| == |from| && Nearest(from, used, id, o, f) && Free(from, used, id, o, g)
    requires Abs(CentreX(from[g]) - CentreX(o)) <= Abs(CentreX(from[f]) - CentreX(o))
    requires Abs(CentreY(from[g]) - CentreY(o)) <= Abs(CentreY(from[f]) - CentreY(o))
    ensures Abs(CentreX(from[g]) - CentreX(o)) == Abs(CentreX(from[f]) - CentreX(o))
    ensures Abs(CentreY(from[g]) - CentreY(o)) == Abs(CentreY(from[f]) - CentreY(o))
    ensures f <= g
  {
    hide CentreX, CentreY, Abs;
    Squares(CentreX(from[g]) - CentreX(o), CentreX(from[f]) - CentreX(o));
    Squares(CentreY(from[g]) - CentreY(o), CentreY(from[f]) - CentreY(o));
    Squares(CentreX(from[f]) - CentreX(o), CentreX(from[g]) - CentreX(o));
    Squares(CentreY(from[f]) - CentreY(o), CentreY(from[g]) - CentreY(o));
  }

  method FindNearest(from: seq<SlideObject>, used: array<bool>, id: Identity, o: SlideObject) returns (best: Option<nat>)
    requires used.Length == |from|
    ensures best.Some? ==> Nearest(from, used[..], id, o, best.value)
    ensures best.None? ==> forall f :: !Free(from, used[..], id, o, f)
  {
    best := None;
    var f := 0;
    while f < |from|
      invariant 0 <= f <= |from|
      invariant best.Some? ==> best.value < f && Free(from, used[..], id, o, best.value)
      invariant best.Some? ==> forall g :: g < f && Free(from, used[..], id, o, g) ==>
                  Distance(from[best.value], o) <= Distance(from[g], o)
                  && (g < best.value ==> Distance(from[best.value], o) < Distance(from[g], o))
      invariant best.None? ==> forall g :: g < f ==> !Free(from, used[..], id, o, g)
    {
      if !used[f] && id(from[f]) == id(o) {
        if best.None? || Distance(from[f], o) < Distance(from[best.value], o) {
          best := Some(f);
        }
      }
      f := f + 1;
    }
  }

  // ---------------------------------------------------------------- the matching

  ghost predicate UsedBy(pairs: seq<Pair>, f: nat) {
    exists k :: 0 <= k < |pairs| && pairs[k].from == f
  }

  ghost predicate Matched(pairs: seq<Pair>, t: nat) {
    exists k :: 0 <= k < |pairs| && pairs[k].to == t
  }

  /** The objects of `from` the first `k` pairs use. */
  function UsedAfter(n: nat, pairs: seq<Pair>, k: nat): (r: seq<bool>)
    requires k <= |pairs|
    ensures |r| == n
    ensures forall f :: 0 <= f < n ==> (r[f] <==> exists j :: 0 <= j < k && pairs[j].from == f)
  {
    seq(n, f requires 0 <= f < n => exists j :: 0 <= j < k && pairs[j].from == f)
  }

  /** Pairs in the order of `to`, each of one object with another the same,
      no object twice. */
  ghost predicate Matching(from: seq<SlideObject>, to: seq<SlideObject>, id: Identity, pairs: seq<Pair>) {
    && (forall k :: 0 <= k < |pairs| ==> pairs[k].from < |from| && pairs[k].to < |to| && id(from[pairs[k].from]) == id(to[pairs[k].to]))
    && (forall j, k :: 0 <= j < k < |pairs| ==> pairs[j].from != pairs[k].from && pairs[j].to < pairs[k].to)
  }

  /** Each pair's `from` is the nearest of those no earlier pair used. */
  ghost predicate NearestEach(from: seq<SlideObject>, to: seq<SlideObject>, id: Identity, pairs: seq<Pair>) {
    forall k :: 0 <= k < |pairs| && pairs[k].to < |to| ==>
      Nearest(from, UsedAfter(|from|, pairs, k), id, to[pairs[k].to], pairs[k].from)
  }

  /** No two objects that are the same are both left out. */
  ghost predicate Maximal(from: seq<SlideObject>, to: seq<SlideObject>, id: Identity, pairs: seq<Pair>, n: nat) {
    forall f, t :: 0 <= f < |from| && 0 <= t < n && t < |to| && id(from[f]) == id(to[t]) ==> UsedBy(pairs, f) || Matched(pairs, t)
  }

  lemma UsedSame(n: nat, pairs: seq<Pair>, more: seq<Pair>, k: nat)
    requires k <= |pairs|
    ensures UsedAfter(n, pairs + more, k) == UsedAfter(n, pairs, k)
  {
    forall f | 0 <= f < n
      ensures UsedAfter(n, pairs + more, k)[f] == UsedAfter(n, pairs, k)[f]
    {
      assert forall j :: 0 <= j < k ==> (pairs + more)[j] == pairs[j];
    }
  }

  lemma PairAdded(from: seq<SlideObject>, to: seq<SlideObject>, id: Identity, pairs: seq<Pair>, t: nat, f: nat)
    requires t < |to| && Matching(from, to, id, pairs) && NearestEach(from, to, id, pairs) && Maximal(from, to, id, pairs, t)
    requires forall k :: 0 <= k < |pairs| ==> pairs[k].to < t
    requires Nearest(from, UsedAfter(|from|, pairs, |pairs|), id, to[t], f)
    ensures var more := pairs + [Pair(f, t)];
            Matching(from, to, id, more) && NearestEach(from, to, id, more) && Maximal(from, to, id, more, t + 1)
  {
    hide Nearest, Distance, UsedAfter;
    var more := pairs + [Pair(f, t)];
    NotUsed(from, to, id, pairs, t, f);
    forall k | 0 <= k < |more| && more[k].to < |to|
      ensures Nearest(from, UsedAfter(|from|, more, k), id, to[more[k].to], more[k].from)
    {
      UsedSame(|from|, pairs, [Pair(f, t)], k);
    }
    forall g, u | 0 <= g < |from| && 0 <= u < t + 1 && u < |to| && id(from[g]) == id(to[u])
      ensures UsedBy(more, g) || Matched(more, u)
    {
      if u == t {
        assert more[|pairs|].to == t;
      } else if UsedBy(pairs, g) {
        var k :| 0 <= k < |pairs| && pairs[k].from == g;
        assert more[k].from == g;
      } else {
        var k :| 0 <= k < |pairs| && pairs[k].to == u;
        assert more[k].to == u;
      }
    }
  }

  lemma NotUsed(from: seq<SlideObject>, to: seq<SlideObject>, id: Identity, pairs: seq<Pair>, t: nat, f: nat)
    requires t < |to| && Nearest(from, UsedAfter(|from|, pairs, |pairs|), id, to[t], f)
    ensures f < |from| && id(from[f]) == id(to[t]) && forall k :: 0 <= k < |pairs| ==> pairs[k].from != f
  {
  }

  lemma NonePassed(from: seq<SlideObject>, to: seq<SlideObject>, id: Identity, pairs: seq<Pair>, t: nat)
    requires t < |to| && Maximal(from, to, id, pairs, t)
    requires forall f :: !Free(from, UsedAfter(|from|, pairs, |pairs|), id, to[t], f)
    ensures Maximal(from, to, id, pairs, t + 1)
  {
    forall f | 0 <= f < |from| && id(from[f]) == id(to[t])
      ensures UsedBy(pairs, f)
    {
      assert !Free(from, UsedAfter(|from|, pairs, |pairs|), id, to[t], f);
    }
  }

  /** The objects two slides share: a matching within each identity that no
      pair could be added to, each pick the nearest of those left. */
  method MatchObjects(from: seq<SlideObject>, to: seq<SlideObject>, id: Identity) returns (pairs: seq<Pair>)
    ensures Matching(from, to, id, pairs)
    ensures NearestEach(from, to, id, pairs)
    ensures Maximal(from, to, id, pairs, |to|)
  {
    hide Nearest, Distance, Free;
    var used := new bool[|from|](_ => false);
    pairs := [];
    assert used[..] == UsedAfter(|from|, pairs, 0);
    var t := 0;
    while t < |to|
      invariant 0 <= t <= |to| && used.Length == |from|
      invariant used[..] == UsedAfter(|from|, pairs, |pairs|)
      invariant Matching(from, to, id, pairs) && NearestEach(from, to, id, pairs) && Maximal(from, to, id, pairs, t)
      invariant forall k :: 0 <= k < |pairs| ==> pairs[k].to < t
    {
      ghost var now := used[..];
      var best := FindNearest(from, used, id, to[t]);
      assert used[..] == now == UsedAfter(|from|, pairs, |pairs|);
      if best.Some? {
        NotUsed(from, to, id, pairs, t, best.value);
        PairAdded(from, to, id, pairs, t, best.value);
        UsedMore(|from|, pairs, used[..], best.value, t);
        used[best.value] := true;
        pairs := pairs + [Pair(best.value, t)];
      } else {
        NonePassed(from, to, id, pairs, t);
      }
      t := t + 1;
    }
  }

  lemma UsedMore(n: nat, pairs: seq<Pair>, used: seq<bool>, f: nat, t: nat)
    requires f < n && used == UsedAfter(n, pairs, |pairs|)
    ensures used[f := true] == UsedAfter(n, pairs + [Pair(f, t)], |pairs| + 1)
  {
    var more := pairs + [Pair(f, t)];
    assert more[|pairs|].from == f;
    var a, b := used[f := true], UsedAfter(n, more, |pairs| + 1);
    forall g | 0 <= g < n
      ensures a[g] == b[g]
    {
      if used[g] {
        var j :| 0 <= j < |pairs| && pairs[j].from == g;
        assert more[j].from == g;
      }
      if b[g] && g != f {
        var j :| 0 <= j < |pairs| + 1 && more[j].from == g;
        assert pairs[j].from == g;
      }
    }
  }

  // ---------------------------------------------------------------- the frame

  /** What is drawn: an object only on the first slide, one moved from a
      counterpart, or one only on the second. */
  datatype Part = Leaving(from: nat) | Shared(from: nat, to: nat) | Arriving(to: nat)

  function PairFrom(pairs: seq<Pair>, f: nat): (r: bool)
    ensures r <==> UsedBy(pairs, f)
  {
    exists k :: 0 <= k < |pairs| && pairs[k].from == f
  }

  function PairTo(pairs: seq<Pair>, t: nat): (r: Option<nat>)
    ensures r.Some? ==> exists k :: 0 <= k < |pairs| && pairs[k] == Pair(r.value, t)
    ensures r.None? <==> !Matched(pairs, t)
  {
    if pairs == [] then None
    else if pairs[0].to == t then Some(pairs[0].from)
    else
      var rest := PairTo(pairs[1..], t);
      assert forall k :: 0 <= k < |pairs[1..]| ==> pairs[1..][k] == pairs[k + 1];
      rest
  }

  /** The part that draws object `t` of the second slide. */
  function Coming(pairs: seq<Pair>, t: nat): Part {
    var f := PairTo(pairs, t);
    if f.Some? then Shared(f.value, t) else Arriving(t)
  }

  /** The objects leaving, in order, underneath; then those of the second slide
      in its order. */
  ghost predicate Drawing(n: nat, m: nat, pairs: seq<Pair>, parts: seq<Part>) {
    && |parts| >= m
    && (forall f :: 0 <= f < n && !UsedBy(pairs, f) ==> Leaving(f) in parts)
    && (forall k :: 0 <= k < |parts| - m ==> parts[k].Leaving? && parts[k].from < n && !UsedBy(pairs, parts[k].from))
    && (forall j, k :: 0 <= j < k < |parts| - m ==> parts[j].from < parts[k].from)
    && (forall t :: 0 <= t < m ==> parts[|parts| - m + t] == Coming(pairs, t))
  }

  method Parts(n: nat, m: nat, pairs: seq<Pair>) returns (parts: seq<Part>)
    ensures Drawing(n, m, pairs, parts)
  {
    parts := [];
    var f := 0;
    while f < n
      invariant 0 <= f <= n
      invariant forall g :: 0 <= g < f && !UsedBy(pairs, g) ==> Leaving(g) in parts
      invariant forall k :: 0 <= k < |parts| ==> parts[k].Leaving? && parts[k].from < f && !UsedBy(pairs, parts[k].from)
      invariant forall j, k :: 0 <= j < k < |parts| ==> parts[j].from < parts[k].from
    {
      if !PairFrom(pairs, f) {
        parts := parts + [Leaving(f)];
      }
      f := f + 1;
    }
    ghost var leaving := parts;
    var t := 0;
    while t < m
      invariant 0 <= t <= m && |parts| == |leaving| + t && parts[..|leaving|] == leaving
      invariant forall u :: 0 <= u < t ==>
                  parts[|leaving| + u] == Coming(pairs, u)
    {
      parts := parts + [Coming(pairs, t)];
      t := t + 1;
    }
    assert forall k :: 0 <= k < |leaving| ==> parts[k] == parts[..|leaving|][k];
    forall g | 0 <= g < n && !UsedBy(pairs, g)
      ensures Leaving(g) in parts
    {
      assert Leaving(g) in parts[..|leaving|];
    }
  }

  /** A matched object has one counterpart. */
  lemma SharedOnce(from: seq<SlideObject>, to: seq<SlideObject>, id: Identity, pairs: seq<Pair>, f: nat)
    requires Matching(from, to, id, pairs) && f < |from| && UsedBy(pairs, f)
    ensures exists t :: 0 <= t < |to| && PairTo(pairs, t) == Some(f)
    ensures forall t, u :: PairTo(pairs, t) == Some(f) && PairTo(pairs, u) == Some(f) ==> t == u
  {
    var k :| 0 <= k < |pairs| && pairs[k].from == f;
    var t := pairs[k].to;
    assert Matched(pairs, t);
    var r := PairTo(pairs, t);
    var j :| 0 <= j < |pairs| && pairs[j] == Pair(r.value, t);
    assert j == k;
    forall u, v | PairTo(pairs, u) == Some(f) && PairTo(pairs, v) == Some(f)
      ensures u == v
    {
      var a :| 0 <= a < |pairs| && pairs[a] == Pair(f, u);
      var b :| 0 <= b < |pairs| && pairs[b] == Pair(f, v);
      assert a == b;
    }
  }

  predicate DrawsFrom(p: Part, f: nat) {
    (p.Leaving? || p.Shared?) && p.from == f
  }

  predicate DrawsTo(p: Part, t: nat) {
    (p.Arriving? || p.Shared?) && p.to == t
  }

  /** Drawn under a matching, each object of the first slide is in exactly one
      part: leaving, or shared with its one counterpart. */
  lemma DrawnOnce(from: seq<SlideObject>, to: seq<SlideObject>, id: Identity, pairs: seq<Pair>, parts: seq<Part>, f: nat)
    requires Matching(from, to, id, pairs) && Drawing(|from|, |to|, pairs, parts) && f < |from|
    ensures exists k :: 0 <= k < |parts| && DrawsFrom(parts[k], f)
    ensures forall j, k :: 0 <= j < k < |parts| && DrawsFrom(parts[j], f) ==> !DrawsFrom(parts[k], f)
  {
    hide Matching;
    var first := |parts| - |to|;
    if UsedBy(pairs, f) {
      SharedOnce(from, to, id, pairs, f);
      var t :| 0 <= t < |to| && PairTo(pairs, t) == Some(f);
      OneComing(pairs, parts, first, |to|, first + t);
      assert DrawsFrom(parts[first + t], f);
    } else {
      var k :| 0 <= k < |parts| && parts[k] == Leaving(f);
      assert DrawsFrom(parts[k], f);
    }
    forall j, k | 0 <= j < k < |parts| && DrawsFrom(parts[j], f)
      ensures !DrawsFrom(parts[k], f)
    {
      OneComing(pairs, parts, first, |to|, j);
      OneComing(pairs, parts, first, |to|, k);
    }
  }

  lemma OneComing(pairs: seq<Pair>, parts: seq<Part>, first: nat, m: nat, k: nat)
    requires |parts| == first + m && forall t :: 0 <= t < m ==> parts[first + t] == Coming(pairs, t)
    ensures first <= k < |parts| ==> parts[k] == Coming(pairs, k - first)
    ensures first <= k < |parts| ==> forall f: nat :: DrawsFrom(parts[k], f) ==> PairTo(pairs, k - first) == Some(f) && UsedBy(pairs, f)
  {
    if first <= k < |parts| {
      var t := k - first;
      assert parts[first + t] == Coming(pairs, t);
    }
  }

  /** And so is each of the second. */
  lemma ComesOnce(n: nat, m: nat, pairs: seq<Pair>, parts: seq<Part>, t: nat)
    requires Drawing(n, m, pairs, parts) && t < m
    ensures DrawsTo(parts[|parts| - m + t], t)
    ensures forall k :: 0 <= k < |parts| && DrawsTo(parts[k], t) ==> k == |parts| - m + t
  {
    var first := |parts| - m;
    OneComing(pairs, parts, first, m, first + t);
    forall k | 0 <= k < |parts| && DrawsTo(parts[k], t)
      ensures k == first + t
    {
      OneComing(pairs, parts, first, m, k);
    }
  }

  /** How opaque each part is drawn: what leaves fades as what arrives comes;
      what is shared stays. */
  function Opacity(p: Part, t: real): real {
    match p
    case Leaving(_) => 1.0 - Ease(t)
    case Shared(_, _) => 1.0
    case Arriving(_) => Ease(t)
  }

  /** At its start a move shows the first slide whole and nothing new; at its
      end the second whole and nothing old; between, what leaves fades just as
      what arrives comes, never turning back, and what is shared stays whole. */
  lemma OpacityEnds(p: Part, s: real, t: real)
    requires s <= t
    ensures Opacity(p, 0.0) == if p.Arriving? then 0.0 else 1.0
    ensures Opacity(p, 1.0) == if p.Leaving? then 0.0 else 1.0
    ensures 0.0 <= Opacity(p, t) <= 1.0
    ensures p.Leaving? ==> Opacity(p, t) <= Opacity(p, s) && forall u :: Opacity(p, t) + Opacity(Arriving(u), t) == 1.0
    ensures p.Arriving? ==> Opacity(p, s) <= Opacity(p, t)
    ensures p.Shared? ==> Opacity(p, t) == 1.0
  {
    EaseEnds();
    EaseRises(s, t);
    hide Ease;
  }
}
