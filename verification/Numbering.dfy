/** Ids are given once, above every id ever used, and never change. */
module Numbering {
  import opened Engine
  import opened Sequences
  import opened Ops

  function SlideIdsOf(slides: seq<Slide>): (ids: seq<nat>)
    ensures |ids| == |slides|
    ensures forall i :: 0 <= i < |slides| ==> ids[i] == slides[i].ids.slide
  {
    seq(|slides|, i requires 0 <= i < |slides| => slides[i].ids.slide)
  }

  /** Numbered, and no object id twice. */
  ghost predicate Sound(s: Slide) {
    ReadySlide(s) && NoDup(s.ids.objects)
  }

  /** A deck as the editor keeps it: never empty, everything numbered, and
      no slide id, and no object id of a slide, twice. */
  ghost predicate Valid(slides: seq<Slide>) {
    && |slides| > 0
    && (forall i :: 0 <= i < |slides| ==> Sound(slides[i]))
    && NoDup(SlideIdsOf(slides))
  }

  lemma {:induction false} ReadyFromStays(slides: seq<Slide>, next: nat)
    requires Ready(slides)
    ensures EnsureFrom(slides, next) == slides
  {
    if slides != [] {
      assert AssignIds(slides[0], next) == (slides[0], next) by {
        assert Fresh(next, 0) == [];
        assert slides[0].ids.objects + [] == slides[0].ids.objects;
      }
      ReadyFromStays(slides[1..], next);
    }
  }

  /** A numbered deck is left alone. */
  lemma ReadyStays(slides: seq<Slide>)
    requires Ready(slides)
    ensures EnsureIds(slides) == slides
  {
    ReadyFromStays(slides, NextId(slides));
  }

  lemma EnsureIdsReady(slides: seq<Slide>)
    ensures Ready(EnsureIds(slides)) && |EnsureIds(slides)| == |slides|
  {
    EnsureFromReady(slides, NextId(slides));
  }

  /** `ensure_ids` is idempotent. */
  lemma EnsureIdsIdempotent(slides: seq<Slide>)
    ensures EnsureIds(EnsureIds(slides)) == EnsureIds(slides)
  {
    EnsureIdsReady(slides);
    ReadyStays(EnsureIds(slides));
  }

  /** What `ensure_ids` may do to one slide: an object keeps the id it had, and
      each id given, to an object past those or to a slide without one, lies in
      `from..to`. */
  ghost predicate NumberedFrom(s: Slide, t: Slide, from: nat, to: nat) {
    && t.props == s.props && t.hidden == s.hidden && t.objects == s.objects && t.ids.deleted == s.ids.deleted
    && ReadySlide(t)
    && (if s.ids.slide == 0 then from <= t.ids.slide < to else t.ids.slide == s.ids.slide)
    && (forall k :: 0 <= k < |s.objects| ==>
          if k < |s.ids.objects| then t.ids.objects[k] == s.ids.objects[k] else from <= t.ids.objects[k] < to)
  }

  lemma {:induction false} EnsureFromKeeps(slides: seq<Slide>, next: nat, i: nat) returns (from: nat, to: nat)
    requires next > 0 && i < |slides|
    ensures |EnsureFrom(slides, next)| == |slides|
    ensures next <= from && NumberedFrom(slides[i], EnsureFrom(slides, next)[i], from, to)
  {
    EnsureFromReady(slides, next);
    var (s, n) := AssignIds(slides[0], next);
    if i == 0 {
      from, to := next, n;
    } else {
      from, to := EnsureFromKeeps(slides[1..], n, i - 1);
    }
  }

  /** Above every id the deck has, live or tombstoned. */
  ghost predicate Above(slides: seq<Slide>, id: nat) {
    forall x :: x in Ids(slides) ==> x < id
  }

  /** Assigned ids never change, whether or not the slide has one for every
      object, and every id `ensure_ids` gives out is larger than every id the
      deck had. Nothing but ids changes. */
  lemma EnsureIdsKeepsAndMintsAbove(slides: seq<Slide>, i: nat)
    requires i < |slides|
    ensures |EnsureIds(slides)| == |slides|
    ensures exists to :: NumberedFrom(slides[i], EnsureIds(slides)[i], NextId(slides), to)
    ensures var s, t := slides[i], EnsureIds(slides)[i];
            && t.props == s.props && t.hidden == s.hidden && t.objects == s.objects && t.ids.deleted == s.ids.deleted
            && |t.ids.objects| == |s.objects|
            && (forall k :: 0 <= k < |s.ids.objects| && k < |s.objects| ==> t.ids.objects[k] == s.ids.objects[k])
            && (forall k :: |s.ids.objects| <= k < |s.objects| ==> Above(slides, t.ids.objects[k]))
            && (if s.ids.slide == 0 then Above(slides, t.ids.slide) else t.ids.slide == s.ids.slide)
  {
    var from, to := EnsureFromKeeps(slides, NextId(slides), i);
    assert NumberedFrom(slides[i], EnsureIds(slides)[i], NextId(slides), to);
    MaxIdBounds(slides);
  }

  lemma {:induction false} EnsureFromInserted(slides: seq<Slide>, at: nat, s: Slide, next: nat)
    requires Ready(slides) && at <= |slides|
    ensures EnsureFrom(Insert(slides, at, s), next) == Insert(slides, at, AssignIds(s, next).0)
  {
    var all := Insert(slides, at, s);
    if at == 0 {
      assert all[1..] == slides;
      ReadyFromStays(slides, AssignIds(s, next).1);
    } else {
      assert all[1..] == Insert(slides[1..], at - 1, s);
      assert AssignIds(slides[0], next) == (slides[0], next) by {
        assert slides[0].ids.objects + Fresh(next, 0) == slides[0].ids.objects;
      }
      EnsureFromInserted(slides[1..], at - 1, s, next);
    }
  }

  /** The slide an `InsertSlide` of `page` at `at` puts in. */
  function Inserted(slides: seq<Slide>, at: nat, page: Slide): Slide
    requires at <= |slides|
  {
    var s := Numbered(slides, page);
    AssignIds(s, NextId(Insert(slides, at, s))).0
  }

  /** Only the new slide is numbered: the others stay as they are. */
  lemma InsertSlideIs(slides: seq<Slide>, at: nat, page: Slide)
    requires Ready(slides) && at <= |slides|
    requires page.ids.slide == 0 || SlidePos(slides, page.ids.slide).None?
    ensures Apply(slides, InsertSlide(at, page)) ==
            Outcome(Insert(slides, at, Inserted(slides, at, page)), Ok([DeleteSlide(Inserted(slides, at, page).ids.slide)]))
  {
    ReadyStays(slides);
    var s := Numbered(slides, page);
    EnsureFromInserted(slides, at, s, NextId(Insert(slides, at, s)));
  }

  // ---------------------------------------------------------------- the ids a deck has had

  /** Every id of the deck, live or tombstoned. */
  ghost function Ids(slides: seq<Slide>): set<nat> {
    set i, x | 0 <= i < |slides| && x in SlideIdList(slides[i]) :: x
  }

  lemma {:induction false} IdListHas(slides: seq<Slide>)
    ensures forall x :: x in IdList(slides) <==> x in Ids(slides)
  {
    if slides != [] {
      IdListHas(slides[1..]);
      forall x
        ensures x in IdList(slides) <==> x in Ids(slides)
      {
        if x in Ids(slides) {
          var i :| 0 <= i < |slides| && x in SlideIdList(slides[i]);
          if i > 0 {
            assert x in SlideIdList(slides[1..][i - 1]);
          }
        }
      }
    }
  }

  lemma MaxIdBounds(slides: seq<Slide>)
    ensures forall x :: x in Ids(slides) ==> x <= MaxId(slides)
    ensures MaxId(slides) == 0 || MaxId(slides) in Ids(slides)
  {
    IdListHas(slides);
  }
}
