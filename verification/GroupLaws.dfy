/** Op groups: all or nothing, and undone exactly (up to tombstones) by the
    inverse group they return. */
module GroupLaws {
  import opened Engine
  import opened Sequences
  import opened Ops
  import opened Numbering
  import opened OpLaws

  /** An inserted slide brings no object id twice. */
  ghost predicate Fits(op: Op) {
    op.InsertSlide? ==> NoDup(op.page.ids.objects)
  }

  // ---------------------------------------------------------------- what every op keeps

  lemma EditReady(s: Slide, op: Op)
    requires ReadySlide(s) && OnOneSlide(op)
    ensures ReadySlide(Edit(s, op).0)
  {
  }

  lemma ReadyWith(slides: seq<Slide>, i: nat, s: Slide)
    requires Ready(slides) && i < |slides| && ReadySlide(s)
    ensures Ready(slides[i := s])
  {
  }

  lemma ReadyMoved(slides: seq<Slide>, from: nat, to: nat)
    requires Ready(slides) && from < |slides| && to < |slides|
    ensures Ready(Relocate(slides, from, to))
  {
    assert Ready(Remove(slides, from));
  }

  lemma ReadyBuried(slides: seq<Slide>, i: nat)
    requires Ready(slides) && i < |slides| && |slides| > 1
    ensures Ready(Bury(Remove(slides, i), i, slides[i]))
  {
    var left := Remove(slides, i);
    assert Ready(left);
    var n := if i < |left| then i else |left| - 1;
    ReadyWith(left, n, Bury(left, i, slides[i])[n]);
  }

  lemma ReadyAfter(slides: seq<Slide>, op: Op)
    ensures Ready(Apply(slides, op).slides)
  {
    hide Ready, ReadySlide, EnsureIds, Edit, Bury, Relocate, Remove, Insert, Numbered;
    EnsureIdsReady(slides);
    var ready := EnsureIds(slides);
    match op
    case SetMaster(_, _) =>
    case InsertSlide(at, page) =>
      if at <= |ready| {
        EnsureIdsReady(Insert(ready, at, Numbered(ready, page)));
      }
    case DeleteSlide(slide) =>
      if SlidePos(ready, slide).Some? && |ready| != 1 {
        ReadyBuried(ready, SlidePos(ready, slide).value);
      }
    case MoveSlide(slide, to) =>
      if SlidePos(ready, slide).Some? && to < |ready| {
        ReadyMoved(ready, SlidePos(ready, slide).value, to);
      }
    case _ =>
      if SlidePos(ready, op.slide).Some? {
        var i := SlidePos(ready, op.slide).value;
        ReadyAt(ready, i);
        EditReady(ready[i], op);
        ReadyWith(ready, i, Edit(ready[i], op).0);
      }
  }

  lemma ReadyAt(slides: seq<Slide>, i: nat)
    requires Ready(slides) && i < |slides|
    ensures ReadySlide(slides[i]) && |slides[i].ids.objects| == |slides[i].objects|
  {
  }

  lemma EditKeeps(s: Slide, op: Op)
    requires ReadySlide(s) && NoDup(s.ids.objects) && OnOneSlide(op)
    ensures var t := Edit(s, op).0;
            ReadySlide(t) && NoDup(t.ids.objects) && t.ids.slide == s.ids.slide
  {
    match op
    case InsertObject(_, at, id, _) =>
      if at <= |s.objects| && id !in s.ids.objects {
        NoDupInsert(s.ids.objects, at, id);
      }
    case DeleteObject(_, id) =>
      if id in s.ids.objects {
        NoDupRemove(s.ids.objects, IndexOf(s.ids.objects, id).value);
      }
    case MoveObject(_, id, to) =>
      if id in s.ids.objects && to < |s.objects| {
        MovedUnique(s.ids.objects, IndexOf(s.ids.objects, id).value, to);
      }
    case _ =>
  }

  /** The ids a slide put in adds are all its own. */
  lemma InsertedIds(slides: seq<Slide>, at: nat, s: Slide)
    requires at <= |slides|
    ensures Ids(Insert(slides, at, s)) == Ids(slides) + (set x | x in SlideIdList(s))
    ensures MaxId(slides) <= MaxId(Insert(slides, at, s))
  {
    var all := Insert(slides, at, s);
    forall x | x in Ids(slides)
      ensures x in Ids(all)
    {
      var i :| 0 <= i < |slides| && x in SlideIdList(slides[i]);
      assert all[if i < at then i else i + 1] == slides[i];
    }
    assert all[at] == s;
    forall x | x in Ids(all)
      ensures x in Ids(slides) + (set x | x in SlideIdList(s))
    {
      var i :| 0 <= i < |all| && x in SlideIdList(all[i]);
      if i != at {
        assert all[i] == slides[if i < at then i else i - 1];
      }
    }
    MaxIdBounds(slides);
    MaxIdBounds(all);
  }

  /** A slide that is numbered gets above `top` whatever ids it lacks. */
  lemma AssignedIds(s: Slide, next: nat, top: nat)
    requires s.ids.slide != 0 && NoDup(s.ids.objects) && top < next
    requires forall x :: x in s.ids.objects ==> x < next
    ensures var t := AssignIds(s, next).0;
            && Sound(t) && t == s.(ids := t.ids) && t.ids.deleted == s.ids.deleted && t.ids.slide == s.ids.slide
            && (forall x :: x in t.ids.objects ==> x in s.ids.objects || x > top)
  {
    var t := AssignIds(s, next).0;
    var kept := KeptIds(s);
    forall k | 0 <= k < |kept|
      ensures t.ids.objects[k] == s.ids.objects[k] < next
    {
      assert s.ids.objects[k] in s.ids.objects;
    }
    assert forall k :: |kept| <= k < |t.ids.objects| ==> t.ids.objects[k] == next + (k - |kept|);
  }

  lemma AboveIsNew(slides: seq<Slide>, id: nat)
    requires id > MaxId(slides)
    ensures id !in SlideIdsOf(slides)
  {
    MaxIdBounds(slides);
    forall j | 0 <= j < |slides|
      ensures slides[j].ids.slide <= MaxId(slides)
    {
      IdsOfOne(slides, j);
    }
  }

  lemma InsertedTop(slides: seq<Slide>, at: nat, s: Slide)
    requires at <= |slides|
    ensures MaxId(slides) <= MaxId(Insert(slides, at, s))
    ensures forall x :: x in s.ids.objects ==> x <= MaxId(Insert(slides, at, s))
  {
    InsertedIds(slides, at, s);
    IdsOfOne(Insert(slides, at, s), at);
    MaxIdBounds(Insert(slides, at, s));
  }

  lemma IdsOfOne(slides: seq<Slide>, i: nat)
    requires i < |slides|
    ensures slides[i].ids.slide in Ids(slides)
    ensures forall x :: x in slides[i].ids.objects ==> x in Ids(slides)
  {
    assert forall x :: x in SlideIdList(slides[i]) ==> x in Ids(slides);
  }

  /** A slide put in is numbered apart from the others, its objects apart
      from each other, every id it lacked above all ids of the deck. */
  lemma InsertedIsApart(slides: seq<Slide>, at: nat, page: Slide)
    requires at <= |slides| && NoDup(page.ids.objects)
    requires page.ids.slide == 0 || SlidePos(slides, page.ids.slide).None?
    ensures var s := Inserted(slides, at, page);
            && Sound(s) && s.ids.slide !in SlideIdsOf(slides)
            && s == page.(ids := s.ids) && s.ids.deleted == page.ids.deleted
            && s.ids.slide == (if page.ids.slide == 0 then NextId(slides) else page.ids.slide)
            && (forall x :: x in s.ids.objects ==> x in page.ids.objects || x > MaxId(slides))
  {
    var s := Numbered(slides, page);
    InsertedTop(slides, at, s);
    AssignedIds(s, NextId(Insert(slides, at, s)), MaxId(slides));
    if page.ids.slide == 0 {
      AboveIsNew(slides, s.ids.slide);
    }
  }

  lemma SlideIdsMoved(slides: seq<Slide>, from: nat, to: nat)
    requires Valid(slides) && from < |slides| && to < |slides|
    ensures Valid(Relocate(slides, from, to))
  {
    hide Sound, NoDup;
    var r := Relocate(slides, from, to);
    assert SlideIdsOf(r) == Relocate(SlideIdsOf(slides), from, to);
    MovedUnique(SlideIdsOf(slides), from, to);
    assert forall j :: 0 <= j < |slides| - 1 ==> Sound(Remove(slides, from)[j]);
  }

  lemma ValidInserted(slides: seq<Slide>, at: nat, s: Slide)
    requires Valid(slides) && at <= |slides| && Sound(s) && s.ids.slide !in SlideIdsOf(slides)
    ensures Valid(Insert(slides, at, s))
  {
    var r := Insert(slides, at, s);
    assert SlideIdsOf(r) == Insert(SlideIdsOf(slides), at, s.ids.slide);
    NoDupInsert(SlideIdsOf(slides), at, s.ids.slide);
    assert forall j :: 0 <= j < |r| ==> r[j] == if j < at then slides[j] else if j == at then s else slides[j - 1];
  }

  lemma ValidRemoved(slides: seq<Slide>, at: nat)
    requires Valid(slides) && at < |slides| && |slides| > 1
    ensures Valid(Bury(Remove(slides, at), at, slides[at]))
  {
    var rest := Remove(slides, at);
    var r := Bury(rest, at, slides[at]);
    assert SlideIdsOf(r) == Remove(SlideIdsOf(slides), at);
    NoDupRemove(SlideIdsOf(slides), at);
    forall j | 0 <= j < |r|
      ensures Sound(r[j])
    {
      assert Sound(slides[if j < at then j else j + 1]);
      assert r[j].ids.objects == rest[j].ids.objects;
    }
  }

  lemma ValidUpdated(slides: seq<Slide>, i: nat, s: Slide)
    requires Valid(slides) && i < |slides| && Sound(s) && s.ids.slide == slides[i].ids.slide
    ensures Valid(slides[i := s])
  {
    assert SlideIdsOf(slides[i := s]) == SlideIdsOf(slides);
  }

  /** Every op keeps the deck valid. */
  lemma ValidAfter(slides: seq<Slide>, op: Op)
    requires Valid(slides) && Fits(op)
    ensures Valid(Apply(slides, op).slides)
  {
    ReadyStays(slides);
    match op
    case SetMaster(_, _) =>
    case InsertSlide(at, page) =>
      if at <= |slides| && (page.ids.slide == 0 || SlidePos(slides, page.ids.slide).None?) {
        InsertSlideIs(slides, at, page);
        InsertedIsApart(slides, at, page);
        ValidInserted(slides, at, Inserted(slides, at, page));
      }
    case DeleteSlide(slide) =>
      var i := SlidePos(slides, slide);
      if i.Some? && |slides| > 1 {
        ValidRemoved(slides, i.value);
      }
    case MoveSlide(slide, to) =>
      var i := SlidePos(slides, slide);
      if i.Some? && to < |slides| {
        SlideIdsMoved(slides, i.value, to);
      }
    case _ =>
      OneSlideIs(slides, op);
      var i := SlidePos(slides, op.slide);
      if i.Some? {
        EditKeeps(slides[i.value], op);
        ValidUpdated(slides, i.value, Edit(slides[i.value], op).0);
      }
  }

  lemma DocAfter(doc: Doc, op: Op)
    requires Valid(doc.slides) && Fits(op)
    ensures Valid(ApplyDoc(doc, op).doc.slides)
  {
    if !op.SetMaster? {
      ValidAfter(doc.slides, op);
    }
  }

  lemma ErasedValid(slides: seq<Slide>)
    ensures Valid(Erase(slides)) <==> Valid(slides)
  {
    var e := Erase(slides);
    assert SlideIdsOf(e) == SlideIdsOf(slides);
    assert forall i :: 0 <= i < |slides| ==> e[i] == EraseSlide(slides[i]);
    assert forall i :: 0 <= i < |slides| ==> (Sound(e[i]) <==> Sound(slides[i]));
  }
}
