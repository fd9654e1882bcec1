/** An op's inverse, and a group's inverse group, give the deck back up to
    tombstones; a group that fails leaves it as it was. */
module Inverses {
  import opened Engine
  import opened Sequences
  import opened Ops
  import opened Numbering
  import opened OpLaws
  import opened GroupLaws

  lemma SameErased(a: seq<Slide>, b: seq<Slide>)
    requires Erase(a) == Erase(b)
    ensures |a| == |b| && forall i :: 0 <= i < |a| ==> EraseSlide(a[i]) == EraseSlide(b[i])
    ensures Ready(a) <==> Ready(b)
    ensures Valid(a) <==> Valid(b)
  {
    ErasedTwice(a);
    ErasedTwice(b);
    ErasedValid(a);
    ErasedValid(b);
    assert |Erase(a)| == |a| && |Erase(b)| == |b|;
    assert forall i :: 0 <= i < |a| ==> Erase(a)[i] == EraseSlide(a[i]) && Erase(b)[i] == EraseSlide(b[i]);
  }

  // ---------------------------------------------------------------- one op

  /** Ops on one slide, one after the other, edit that slide alone. */
  lemma {:induction false} EditsInDeck(doc: Doc, i: nat, id: nat, ops: seq<Op>)
    requires Ready(doc.slides) && SlidePos(doc.slides, id) == Some(i)
    requires forall u :: u in ops ==> OnOneSlide(u) && u.slide == id
    requires EditAll(doc.slides[i], ops).Some?
    ensures ApplyAll(doc, ops).reply.Ok?
    ensures ApplyAll(doc, ops).doc == doc.(slides := doc.slides[i := EditAll(doc.slides[i], ops).value])
    decreases |ops|
  {
    if ops == [] {
      assert doc.slides[i := doc.slides[i]] == doc.slides;
    } else {
      var s := doc.slides[i];
      assert ops[0] in ops;
      OneSlideIs(doc.slides, ops[0]);
      var t := Edit(s, ops[0]).0;
      var next := doc.(slides := doc.slides[i := t]);
      assert ApplyDoc(doc, ops[0]) == DocOutcome(next, Edit(s, ops[0]).1);
      EditKeepsId(s, ops[0]);
      SamePos(doc.slides, i, t, id);
      EditsInDeck(next, i, id, ops[1..]);
      var back := EditAll(t, ops[1..]).value;
      assert next.slides[i := back] == doc.slides[i := back];
    }
  }

  lemma EditKeepsId(s: Slide, op: Op)
    requires ReadySlide(s) && OnOneSlide(op)
    ensures Edit(s, op).0.ids.slide == s.ids.slide
  {
  }

  lemma SamePos(slides: seq<Slide>, i: nat, t: Slide, id: nat)
    requires i < |slides| && t.ids.slide == slides[i].ids.slide
    ensures SlidePos(slides[i := t], id) == SlidePos(slides, id)
  {
    var after := slides[i := t];
    assert forall j :: 0 <= j < |slides| ==> after[j].ids.slide == slides[j].ids.slide;
    var a, b := SlidePos(slides, id), SlidePos(after, id);
    assert a.Some? <==> b.Some?;
  }

  lemma PosIs(slides: seq<Slide>, i: nat)
    requires NoDup(SlideIdsOf(slides)) && i < |slides|
    ensures SlidePos(slides, slides[i].ids.slide) == Some(i)
  {
    var r := SlidePos(slides, slides[i].ids.slide);
    if r.Some? {
      UniquePos(slides, i, r.value);
    }
  }

  lemma UniquePos(slides: seq<Slide>, i: nat, j: nat)
    requires NoDup(SlideIdsOf(slides)) && i < |slides| && j < |slides|
    requires slides[i].ids.slide == slides[j].ids.slide
    ensures i == j
  {
    var ids := SlideIdsOf(slides);
    assert ids[i] == ids[j];
  }

  /** Whether the inverse of `op` brings `doc` back, up to tombstones. */
  ghost predicate Restores(doc: Doc, op: Op) {
    var o := ApplyDoc(doc, op);
    o.reply.Ok? && EraseDoc(ApplyAll(o.doc, o.reply.value).doc) == EraseDoc(doc)
  }

  /** The inverse of `op` applies, and does something if `op` did. */
  ghost predicate InverseApplies(doc: Doc, op: Op) {
    var o := ApplyDoc(doc, op);
    o.reply.Ok? ==>
      var back := ApplyAll(o.doc, o.reply.value);
      back.reply.Ok? && (o.reply.value != [] ==> back.reply.value != [])
  }

  lemma One(doc: Doc, op: Op)
    ensures ApplyAll(doc, [op]).reply == ApplyDoc(doc, op).reply
    ensures ApplyDoc(doc, op).reply.Ok? ==> ApplyAll(doc, [op]).doc == ApplyDoc(doc, op).doc
  {
    var first := ApplyDoc(doc, op);
    if first.reply.Ok? {
      assert [op][1..] == [];
      assert ApplyAll(first.doc, [op][1..]) == DocOutcome(first.doc, Ok([]));
      assert [] + first.reply.value == first.reply.value;
    }
  }

  lemma InsertSlideRestores(doc: Doc, at: nat, page: Slide)
    requires Valid(doc.slides) && NoDup(page.ids.objects)
    requires ApplyDoc(doc, InsertSlide(at, page)).reply.Ok?
    ensures Restores(doc, InsertSlide(at, page)) && InverseApplies(doc, InsertSlide(at, page))
  {
    hide Erase, NoDup, Inserted, AssignIds;
    ReadyStays(doc.slides);
    InsertSlideIs(doc.slides, at, page);
    InsertedIsApart(doc.slides, at, page);
    var s := Inserted(doc.slides, at, page);
    var o := ApplyDoc(doc, InsertSlide(at, page));
    ValidInserted(doc.slides, at, s);
    assert o.doc.slides[at] == s;
    PosIs(o.doc.slides, at);
    ReadyStays(o.doc.slides);
    One(o.doc, DeleteSlide(s.ids.slide));
    RemoveInsert(doc.slides, at, s);
    ErasedBury(doc.slides, at, s);
  }

  /** A slide taken out goes back in as it was, where it was. */
  lemma BackIn(slides: seq<Slide>, at: nat)
    requires Valid(slides) && at < |slides| && |slides| > 1
    ensures var left := Bury(Remove(slides, at), at, slides[at]);
            && Ready(left) && at <= |left|
            && Apply(left, InsertSlide(at, slides[at])) ==
               Outcome(Insert(left, at, slides[at]), Ok([DeleteSlide(slides[at].ids.slide)]))
            && Erase(Insert(left, at, slides[at])) == Erase(slides)
  {
    hide Ops.Apply, Erase, Inserted, AssignIds, Ready;
    var s := slides[at];
    var rest := Remove(slides, at);
    var left := Bury(rest, at, s);
    ReadyBuried(slides, at);
    BuriedIds(slides, at);
    Absent(left, s.ids.slide);
    InsertSlideIs(left, at, s);
    CarriedIn(left, at, s);
    ErasedInsert(left, at, s);
    ErasedBury(rest, at, s);
    ErasedInsert(rest, at, s);
    InsertRemove(slides, at);
  }

  lemma BuriedIds(slides: seq<Slide>, at: nat)
    requires Valid(slides) && at < |slides| && |slides| > 1
    ensures Sound(slides[at]) && Ready(slides)
    ensures slides[at].ids.slide !in SlideIdsOf(Bury(Remove(slides, at), at, slides[at]))
  {
    assert SlideIdsOf(Bury(Remove(slides, at), at, slides[at])) == Remove(SlideIdsOf(slides), at);
    NoDupRemove(SlideIdsOf(slides), at);
  }

  lemma DeleteSlideRestores(doc: Doc, slide: nat)
    requires Valid(doc.slides)
    requires ApplyDoc(doc, DeleteSlide(slide)).reply.Ok?
    ensures Restores(doc, DeleteSlide(slide)) && InverseApplies(doc, DeleteSlide(slide))
  {
    hide Erase, Bury, Remove, Insert, NoDup;
    ReadyStays(doc.slides);
    var i := SlidePos(doc.slides, slide);
    if i.Some? {
      BackIn(doc.slides, i.value);
      One(ApplyDoc(doc, DeleteSlide(slide)).doc, InsertSlide(i.value, doc.slides[i.value]));
    }
  }

  lemma Absent(slides: seq<Slide>, id: nat)
    requires id !in SlideIdsOf(slides)
    ensures SlidePos(slides, id).None?
  {
    var ids := SlideIdsOf(slides);
    assert forall j :: 0 <= j < |slides| ==> ids[j] in ids;
  }

  lemma MoveSlideRestores(doc: Doc, slide: nat, to: nat)
    requires Valid(doc.slides)
    requires ApplyDoc(doc, MoveSlide(slide, to)).reply.Ok?
    ensures Restores(doc, MoveSlide(slide, to)) && InverseApplies(doc, MoveSlide(slide, to))
  {
    ReadyStays(doc.slides);
    var i := SlidePos(doc.slides, slide);
    var o := ApplyDoc(doc, MoveSlide(slide, to));
    if i.Some? {
      SlideIdsMoved(doc.slides, i.value, to);
      Moved(doc.slides, i.value, to);
      PosIs(o.doc.slides, to);
      ReadyStays(o.doc.slides);
      One(o.doc, MoveSlide(slide, i.value));
    }
  }

  lemma EditNothing(s: Slide, op: Op)
    requires ReadySlide(s) && OnOneSlide(op) && Edit(s, op).1 == Ok([])
    ensures Edit(s, op).0 == s && !op.InsertObject?
  {
  }

  lemma OneSlideRestores(doc: Doc, op: Op)
    requires Valid(doc.slides) && OnOneSlide(op)
    requires ApplyDoc(doc, op).reply.Ok?
    ensures InverseApplies(doc, op)
    ensures Restores(doc, op) <==> Undoable(doc.slides, op)
  {
    hide Edit, Erase, NoDup;
    OneSlideIs(doc.slides, op);
    var i := SlidePos(doc.slides, op.slide);
    if i.Some? && ApplyDoc(doc, op).reply.value != [] {
      InverseEdits(doc, op, i.value);
      var back := EditAll(Edit(doc.slides[i.value], op).0, ApplyDoc(doc, op).reply.value).value;
      UpdatedErased(doc.slides, i.value, back);
    } else if i.Some? {
      EditNothing(doc.slides[i.value], op);
      assert doc.slides[i.value := doc.slides[i.value]] == doc.slides;
    }
  }

  /** The inverse of an edit of slide `at` edits that slide, back to what it
      was if the edit can be undone. */
  lemma InverseEdits(doc: Doc, op: Op, at: nat)
    requires Valid(doc.slides) && OnOneSlide(op) && SlidePos(doc.slides, op.slide) == Some(at)
    requires Sound(doc.slides[at])
    requires var reply := Edit(doc.slides[at], op).1; reply.Ok? && reply.value != []
    ensures EditsBack(doc.slides[at], op)
    ensures var (t, reply) := Edit(doc.slides[at], op);
            var o := ApplyDoc(doc, op);
            var back := ApplyAll(o.doc, reply.value);
            && o.reply == reply
            && back.reply.Ok? && back.reply.value != []
            && back.doc == doc.(slides := doc.slides[at := EditAll(t, reply.value).value])
  {
    hide Ops.Apply, ApplyAll, NoDup;
    var s := doc.slides[at];
    OneSlideIs(doc.slides, op);
    EditInverse(s, op);
    ValidUpdatedBy(doc.slides, at, op);
    var (t, reply) := Edit(s, op);
    var o := ApplyDoc(doc, op);
    SamePos(doc.slides, at, t, op.slide);
    EditsInDeck(o.doc, at, op.slide, reply.value);
    var back := EditAll(t, reply.value).value;
    assert o.doc.slides[at := back] == doc.slides[at := back];
    EffectiveEdit(s, op);
    OneSlideIs(o.doc.slides, reply.value[0]);
    InverseSays(o.doc, reply.value);
  }

  lemma UpdatedErased(slides: seq<Slide>, at: nat, t: Slide)
    requires at < |slides|
    ensures Erase(slides[at := t]) == Erase(slides) <==> EraseSlide(t) == EraseSlide(slides[at])
  {
    var a, b := Erase(slides[at := t]), Erase(slides);
    assert a[at] == EraseSlide(t) && b[at] == EraseSlide(slides[at]);
    if EraseSlide(t) == EraseSlide(slides[at]) {
      assert a == b;
    }
  }

  lemma ValidUpdatedBy(slides: seq<Slide>, at: nat, op: Op)
    requires Valid(slides) && OnOneSlide(op) && at < |slides|
    ensures Sound(slides[at]) && Valid(slides[at := Edit(slides[at], op).0])
    ensures Edit(slides[at], op).0.ids.slide == slides[at].ids.slide
  {
    EditKeeps(slides[at], op);
    ValidUpdated(slides, at, Edit(slides[at], op).0);
  }

  /** The first op of an inverse does something to the slide it undoes. */
  lemma EffectiveEdit(s: Slide, op: Op)
    requires Sound(s) && OnOneSlide(op) && Edit(s, op).1.Ok? && Edit(s, op).1.value != []
    ensures var (t, reply) := Edit(s, op);
            && OnOneSlide(reply.value[0]) && ReadySlide(t)
            && Edit(t, reply.value[0]).1.Ok? && Edit(t, reply.value[0]).1.value != []
  {
    EditInverse(s, op);
    EditKeeps(s, op);
    var (t, reply) := Edit(s, op);
    match op
    case InsertObject(_, at, id, _) =>
      assert t.ids.objects[at] == id;
    case MoveObject(_, id, to) =>
      assert t.ids.objects[to] == id;
    case _ =>
  }

  /** A group's reply ends with what its first op's inverse was. */
  lemma InverseSays(doc: Doc, ops: seq<Op>)
    requires ops != [] && ApplyAll(doc, ops).reply.Ok?
    ensures ApplyDoc(doc, ops[0]).reply.Ok?
    ensures ApplyDoc(doc, ops[0]).reply.value != [] ==> ApplyAll(doc, ops).reply.value != []
  {
  }

  lemma SetMasterRestores(doc: Doc, id: nat, master: Master)
    requires ApplyDoc(doc, SetMaster(id, master)).reply.Ok?
    ensures Restores(doc, SetMaster(id, master)) && InverseApplies(doc, SetMaster(id, master))
  {
    var o := ApplyDoc(doc, SetMaster(id, master));
    var i := MasterPos(doc.masters, id).value;
    assert forall k :: 0 <= k < |doc.masters| ==> o.doc.masters[k].id == doc.masters[k].id;
    assert MasterPos(o.doc.masters, id) == Some(i);
    One(o.doc, o.reply.value[0]);
    assert o.doc.masters[i := doc.masters[i]] == doc.masters;
  }

  /** The inverse of an op always applies, does something whenever the op
      did, and restores every slide, object, id, build, property and master
      exactly when no build of the slide names the object the op inserts. */
  lemma InverseRestores(doc: Doc, op: Op)
    requires Valid(doc.slides) && Fits(op)
    requires ApplyDoc(doc, op).reply.Ok?
    ensures InverseApplies(doc, op)
    ensures Restores(doc, op) <==> Undoable(doc.slides, op)
  {
    match op
    case SetMaster(id, master) => SetMasterRestores(doc, id, master);
    case InsertSlide(at, page) => InsertSlideRestores(doc, at, page);
    case DeleteSlide(slide) => DeleteSlideRestores(doc, slide);
    case MoveSlide(slide, to) => MoveSlideRestores(doc, slide, to);
    case _ => OneSlideRestores(doc, op);
  }
}
