/** Putting a slide on a layout as one group of ops. */
module LayoutOps {
  import opened Engine
  import opened Sequences
  import opened Ops
  import opened Numbering
  import opened OpLaws
  import opened GroupLaws
  import opened Inverses
  import opened Layouts

  /** One `SetObject` per object, from the `k`-th on, that differs. */
  function SetObjectsFrom(s: Slide, objects: seq<SlideObject>, k: nat): seq<Op>
    requires k <= |objects|
    decreases |objects| - k
  {
    if k >= |objects| || k >= |s.objects| || k >= |s.ids.objects| then []
    else
      (if s.objects[k] != objects[k] then [SetObject(s.ids.slide, s.ids.objects[k], objects[k])] else [])
      + SetObjectsFrom(s, objects, k + 1)
  }

  /** New objects after the `at` there are, under ids from `next` on. */
  function InsertsFrom(slide: nat, at: nat, next: nat, objects: seq<SlideObject>): seq<Op>
    decreases |objects|
  {
    if objects == [] then []
    else [InsertObject(slide, at, next, objects[0])] + InsertsFrom(slide, at + 1, next + 1, objects[1..])
  }

  function OnLayout(p: SlideProps, masterId: nat, target: Layout): SlideProps {
    p.(layoutId := Some(target.id), masterId := Some(masterId))
  }

  /** The ops that put slide `id` on `target`; none for an unknown slide. */
  function ArrangedOps(slides: seq<Slide>, id: nat, masterId: nat, target: Layout): (r: Option<seq<Op>>)
    ensures r.Some? <==> SlidePos(slides, id).Some?
  {
    var i := SlidePos(slides, id);
    if i.None? then None
    else
      var s := slides[i.value];
      var arranged := Arranged(s.objects, target.places);
      var kept := |s.objects|;
      var props := OnLayout(s.props, masterId, target);
      KeptLength(s.objects, target.places);
      Some((if props != s.props then [SetSlide(id, props)] else [])
           + SetObjectsFrom(s, arranged[..kept], 0)
           + InsertsFrom(id, kept, NextId(slides), arranged[kept..]))
  }

  lemma KeptLength(objects: seq<SlideObject>, places: seq<LayoutPlace>)
    ensures |objects| <= |Arranged(objects, places)|
  {
  }

  // ---------------------------------------------------------------- what the ops come to

  /** All ops edit slide `id`. */
  ghost predicate AllOn(ops: seq<Op>, id: nat) {
    forall u :: u in ops ==> OnOneSlide(u) && u.slide == id
  }

  lemma AllOnJoined(a: seq<Op>, b: seq<Op>, id: nat)
    requires AllOn(a, id) && AllOn(b, id)
    ensures AllOn(a + b, id)
  {
  }

  lemma {:induction false} EditAllJoined(s: Slide, a: seq<Op>, b: seq<Op>, id: nat)
    requires ReadySlide(s) && AllOn(a, id) && AllOn(b, id) && EditAll(s, a).Some? && ReadySlide(EditAll(s, a).value)
    ensures EditAll(s, a + b) == EditAll(EditAll(s, a).value, b)
    decreases |a|
  {
    hide Edit;
    if a == [] {
      assert a + b == b;
    } else {
      assert (a + b)[0] == a[0] && (a + b)[1..] == a[1..] + b;
      assert AllOn(a[1..], id) && a[0] in a;
      var (t, reply) := Edit(s, a[0]);
      EditAllJoined(t, a[1..], b, id);
    }
  }

  lemma {:induction false} SetObjectsOn(s: Slide, objects: seq<SlideObject>, k: nat)
    requires k <= |objects|
    ensures AllOn(SetObjectsFrom(s, objects, k), s.ids.slide)
    decreases |objects| - k
  {
    if !(k >= |objects| || k >= |s.objects| || k >= |s.ids.objects|) {
      SetObjectsOn(s, objects, k + 1);
    }
  }

  /** Setting each object that differs, from the `k`-th on, makes them all alike. */
  lemma {:induction false} SetObjectsMake(s: Slide, t: Slide, objects: seq<SlideObject>, k: nat)
    requires Sound(s) && Sound(t) && |objects| == |s.objects| == |t.objects| && k <= |objects| && t.ids == s.ids
    requires t.objects[..k] == objects[..k] && t.objects[k..] == s.objects[k..]
    ensures AllOn(SetObjectsFrom(s, objects, k), s.ids.slide)
    ensures EditAll(t, SetObjectsFrom(s, objects, k)) == Some(t.(objects := objects))
    decreases |objects| - k
  {
    SetObjectsOn(s, objects, k);
    if k == |objects| {
      assert t.objects == objects;
    } else {
      IndexOfUnique(s.ids.objects, k);
      assert t.objects[k] == t.objects[k..][0] == s.objects[k];
      var u := t.(objects := t.objects[k := objects[k]]);
      assert u.objects[..k + 1] == objects[..k + 1] by {
        assert u.objects[..k] == objects[..k];
      }
      assert u.objects[k + 1..] == s.objects[k + 1..] by {
        assert t.objects[k..][1..] == s.objects[k..][1..];
      }
      SetObjectsMake(s, u, objects, k + 1);
      var rest := SetObjectsFrom(s, objects, k + 1);
      if s.objects[k] == objects[k] {
        assert u.objects == t.objects;
        assert [] + rest == rest;
      } else {
        var op := SetObject(s.ids.slide, s.ids.objects[k], objects[k]);
        assert Edit(t, op).0 == u && Edit(t, op).1.Ok?;
        assert ([op] + rest)[1..] == rest;
      }
    }
  }

  lemma {:induction false} InsertsOn(slide: nat, at: nat, next: nat, objects: seq<SlideObject>)
    ensures AllOn(InsertsFrom(slide, at, next, objects), slide)
    decreases |objects|
  {
    if objects != [] {
      InsertsOn(slide, at + 1, next + 1, objects[1..]);
    }
  }

  /** Inserts at the end, each under the next id. */
  lemma {:induction false} InsertsMake(t: Slide, next: nat, objects: seq<SlideObject>)
    requires Sound(t) && forall x :: x in t.ids.objects ==> x < next
    ensures AllOn(InsertsFrom(t.ids.slide, |t.objects|, next, objects), t.ids.slide)
    ensures var r := EditAll(t, InsertsFrom(t.ids.slide, |t.objects|, next, objects));
            && r.Some? && r.value.objects == t.objects + objects
            && r.value.ids.objects == t.ids.objects + Fresh(next, |objects|)
            && r.value.props == t.props && r.value.hidden == t.hidden && r.value.ids.slide == t.ids.slide
    decreases |objects|
  {
    hide Edit;
    InsertsOn(t.ids.slide, |t.objects|, next, objects);
    if objects == [] {
      assert t.objects + objects == t.objects;
      assert t.ids.objects + Fresh(next, 0) == t.ids.objects;
    } else {
      var op := InsertObject(t.ids.slide, |t.objects|, next, objects[0]);
      var u := Edit(t, op).0;
      OneInsert(t, next, objects[0]);
      InsertsMake(u, next + 1, objects[1..]);
      InsertsFirst(t, op, InsertsFrom(t.ids.slide, |t.objects| + 1, next + 1, objects[1..]));
      assert u.objects + objects[1..] == t.objects + objects;
      assert u.ids.objects + Fresh(next + 1, |objects| - 1) == t.ids.objects + Fresh(next, |objects|);
    }
  }

  lemma OneInsert(t: Slide, next: nat, o: SlideObject)
    requires Sound(t) && forall x :: x in t.ids.objects ==> x < next
    ensures var (u, reply) := Edit(t, InsertObject(t.ids.slide, |t.objects|, next, o));
            && reply.Ok? && Sound(u) && u.objects == t.objects + [o] && u.ids.objects == t.ids.objects + [next]
            && u.props == t.props && u.hidden == t.hidden && u.ids.slide == t.ids.slide
            && (forall x :: x in u.ids.objects ==> x < next + 1)
  {
    assert next !in t.ids.objects;
  }

  lemma InsertsFirst(t: Slide, op: Op, rest: seq<Op>)
    requires ReadySlide(t) && OnOneSlide(op) && Edit(t, op).1.Ok? && ReadySlide(Edit(t, op).0)
    requires forall u :: u in rest ==> OnOneSlide(u)
    ensures EditAll(t, [op] + rest) == EditAll(Edit(t, op).0, rest)
  {
    hide Edit;
    assert ([op] + rest)[1..] == rest;
  }

  /** The same properties but for the layout and master they name. */
  ghost predicate OnlyLayout(was: SlideProps, now: SlideProps, masterId: nat, layoutId: nat) {
    && now.layoutId == Some(layoutId) && now.masterId == Some(masterId)
    && now.title == was.title && now.background == was.background && now.picture == was.picture && now.notes == was.notes
    && now.transition == was.transition && now.builds == was.builds
  }

  /** The slide as the group makes it: on its layout, its boxes in place, each
      new one under an id above every id the deck has had. */
  ghost predicate OnIts(s: Slide, t: Slide, masterId: nat, target: Layout, next: nat) {
    var out := Arranged(s.objects, target.places);
    && t.objects == out
    && OnlyLayout(s.props, t.props, masterId, target.id)
    && t.hidden == s.hidden && t.ids.slide == s.ids.slide
    && |s.objects| <= |out|
    && t.ids.objects == s.ids.objects + Fresh(next, |out| - |s.objects|)
  }

  lemma EditsMake(s: Slide, masterId: nat, target: Layout, next: nat, ops: seq<Op>)
    requires Sound(s) && forall x :: x in s.ids.objects ==> x < next
    requires |s.objects| <= |Arranged(s.objects, target.places)|
    requires var out, props := Arranged(s.objects, target.places), OnLayout(s.props, masterId, target);
             ops == (if props != s.props then [SetSlide(s.ids.slide, props)] else [])
                    + SetObjectsFrom(s, out[..|s.objects|], 0) + InsertsFrom(s.ids.slide, |s.objects|, next, out[|s.objects|..])
    ensures AllOn(ops, s.ids.slide) && EditAll(s, ops).Some? && OnIts(s, EditAll(s, ops).value, masterId, target, next)
  {
    hide Arranged, Edit, SetObjectsFrom, InsertsFrom;
    var out, props := Arranged(s.objects, target.places), OnLayout(s.props, masterId, target);
    var id, n := s.ids.slide, |s.objects|;
    var set_, sets, adds := if props != s.props then [SetSlide(id, props)] else [], SetObjectsFrom(s, out[..n], 0), InsertsFrom(id, n, next, out[n..]);
    var t := s.(props := props);
    PropsMake(s, props);
    SetObjectsMake(s, t, out[..n], 0);
    var u := t.(objects := out[..n]);
    InsertsMake(u, next, out[n..]);
    assert out[..n] + out[n..] == out;
    AllOnJoined(set_, sets, id);
    AllOnJoined(set_ + sets, adds, id);
    EditAllJoined(s, set_, sets, id);
    EditAllJoined(s, set_ + sets, adds, id);
  }

  lemma PropsMake(s: Slide, props: SlideProps)
    requires ReadySlide(s)
    ensures var set_ := if props != s.props then [SetSlide(s.ids.slide, props)] else [];
            AllOn(set_, s.ids.slide) && EditAll(s, set_) == Some(s.(props := props))
  {
    var op := SetSlide(s.ids.slide, props);
    assert [op][1..] == [];
    assert EditAll(s.(props := props), []) == Some(s.(props := props));
  }

  /** Applied as a group the ops put the slide exactly on its layout, and
      change nothing else. */
  lemma ArrangedOpsMake(doc: Doc, id: nat, masterId: nat, target: Layout)
    requires Valid(doc.slides) && SlidePos(doc.slides, id).Some?
    ensures var ops := ArrangedOps(doc.slides, id, masterId, target).value;
            var i := SlidePos(doc.slides, id).value;
            var o := ApplyAll(doc, ops);
            && o.reply.Ok?
            && |o.doc.slides| == |doc.slides| && o.doc == doc.(slides := doc.slides[i := o.doc.slides[i]])
            && OnIts(doc.slides[i], o.doc.slides[i], masterId, target, NextId(doc.slides))
  {
    hide Arranged, Edit, SetObjectsFrom, InsertsFrom, OnIts, EditAll, ApplyAll;
    var i := SlidePos(doc.slides, id).value;
    var s := doc.slides[i];
    var ops := ArrangedOps(doc.slides, id, masterId, target).value;
    KeptLength(s.objects, target.places);
    IdsOfOne(doc.slides, i);
    MaxIdBounds(doc.slides);
    EditsMake(s, masterId, target, NextId(doc.slides), ops);
    EditsInDeck(doc, i, id, ops);
  }

  lemma {:induction false} NothingToSet(s: Slide, objects: seq<SlideObject>, k: nat)
    requires k <= |objects| && objects == s.objects
    ensures SetObjectsFrom(s, objects, k) == []
    decreases |objects| - k
  {
    if k < |objects| {
      NothingToSet(s, objects, k + 1);
    }
  }

  /** A slide already on the layout, in its master, needs no ops: applying a
      layout twice is applying it once. */
  lemma ArrangedAgain(doc: Doc, id: nat, masterId: nat, target: Layout)
    requires Valid(doc.slides) && SlidePos(doc.slides, id).Some?
    ensures var o := ApplyAll(doc, ArrangedOps(doc.slides, id, masterId, target).value);
            ArrangedOps(o.doc.slides, id, masterId, target) == Some([])
  {
    hide Arranged, SetObjectsFrom, InsertsFrom, ApplyAll, ArrangedOps;
    var i := SlidePos(doc.slides, id).value;
    var s := doc.slides[i];
    var o := ApplyAll(doc, ArrangedOps(doc.slides, id, masterId, target).value);
    ArrangedOpsMake(doc, id, masterId, target);
    var t := o.doc.slides[i];
    SamePos(doc.slides, i, t, id);
    ArrangedTwice(s.objects, target.places);
    OnItsAgain(o.doc.slides, i, id, masterId, target);
  }

  lemma OnItsAgain(slides: seq<Slide>, i: nat, id: nat, masterId: nat, target: Layout)
    requires SlidePos(slides, id) == Some(i) && Arranged(slides[i].objects, target.places) == slides[i].objects
    requires OnLayout(slides[i].props, masterId, target) == slides[i].props
    ensures ArrangedOps(slides, id, masterId, target) == Some([])
  {
    hide Arranged;
    var t := slides[i];
    assert t.objects[..|t.objects|] == t.objects && t.objects[|t.objects|..] == [];
    NothingToSet(t, t.objects, 0);
    var adds := InsertsFrom(id, |t.objects|, NextId(slides), []);
    assert adds == [];
    assert [] + [] + adds == [];
  }
}
