/** The laws of the op algebra: every op's returned inverse restores the deck
    up to tombstones, and tombstones never decide what an op does. */
module OpLaws {
  import opened Engine
  import opened Sequences
  import opened Ops
  import opened Numbering

  // ---------------------------------------------------------------- tombstones set aside

  function EraseSlide(s: Slide): Slide {
    s.(ids := s.ids.(deleted := []))
  }

  /** The deck without its tombstone lists, which undo leaves alone. */
  function Erase(slides: seq<Slide>): seq<Slide> {
    seq(|slides|, i requires 0 <= i < |slides| => EraseSlide(slides[i]))
  }

  function EraseOp(op: Op): Op {
    if op.InsertSlide? then op.(page := EraseSlide(op.page)) else op
  }

  function EraseOps(ops: seq<Op>): (r: seq<Op>)
    ensures |r| == |ops|
    ensures forall i :: 0 <= i < |ops| ==> r[i] == EraseOp(ops[i])
  {
    seq(|ops|, i requires 0 <= i < |ops| => EraseOp(ops[i]))
  }

  function EraseReply(reply: Reply): Reply {
    if reply.Ok? then Ok(EraseOps(reply.value)) else reply
  }

  function EraseDoc(doc: Doc): Doc {
    doc.(slides := Erase(doc.slides))
  }

  /** An op that brings its own ids: it mints none. */
  predicate Carrying(op: Op) {
    op.InsertSlide? ==> ReadySlide(op.page)
  }

  predicate CarryingAll(ops: seq<Op>) {
    forall i :: 0 <= i < |ops| ==> Carrying(ops[i])
  }

  lemma ErasedPos(slides: seq<Slide>, id: nat)
    ensures SlidePos(Erase(slides), id) == SlidePos(slides, id)
  {
    assert forall j :: 0 <= j < |slides| ==> Erase(slides)[j].ids.slide == slides[j].ids.slide;
    var a, b := SlidePos(slides, id), SlidePos(Erase(slides), id);
    assert a.Some? <==> b.Some?;
  }

  lemma ErasedInsert(slides: seq<Slide>, at: nat, s: Slide)
    requires at <= |slides|
    ensures Erase(Insert(slides, at, s)) == Insert(Erase(slides), at, EraseSlide(s))
  {
  }

  lemma ErasedRemove(slides: seq<Slide>, at: nat)
    requires at < |slides|
    ensures Erase(Remove(slides, at)) == Remove(Erase(slides), at)
  {
  }

  lemma ErasedTwice(slides: seq<Slide>)
    ensures Erase(Erase(slides)) == Erase(slides)
    ensures Ready(Erase(slides)) <==> Ready(slides)
  {
    assert forall j :: 0 <= j < |slides| ==> Erase(slides)[j] == EraseSlide(slides[j]);
  }

  /** Burying touches tombstones only. */
  lemma ErasedBury(slides: seq<Slide>, at: nat, s: Slide)
    requires 0 < |slides| && at <= |slides|
    ensures Erase(Bury(slides, at, s)) == Erase(slides)
  {
  }

  /** An op on one slide, in the deck: that slide alone is edited. */
  lemma OneSlideIs(slides: seq<Slide>, op: Op)
    requires Ready(slides) && OnOneSlide(op)
    ensures SlidePos(slides, op.slide).None? ==> Apply(slides, op) == Outcome(slides, Ok([]))
    ensures SlidePos(slides, op.slide).Some? ==>
              var i := SlidePos(slides, op.slide).value;
              var (s, reply) := Edit(slides[i], op);
              Apply(slides, op) == Outcome(slides[i := s], reply)
  {
    ReadyStays(slides);
  }

  lemma ErasedEdit(s: Slide, op: Op)
    requires ReadySlide(s) && OnOneSlide(op)
    ensures var (t, reply) := Edit(s, op);
            var (u, reply') := Edit(EraseSlide(s), op);
            EraseSlide(t) == EraseSlide(u) && reply' == reply && EraseReply(reply) == reply
  {
    var (t, reply) := Edit(s, op);
    if reply.Ok? {
      assert EraseOps(reply.value) == reply.value;
    }
  }

  /** A slide that brings its ids goes in as it is. */
  lemma CarriedIn(slides: seq<Slide>, at: nat, page: Slide)
    requires at <= |slides| && ReadySlide(page)
    ensures Inserted(slides, at, page) == page
  {
    assert page.ids.objects + Fresh(0, 0) == page.ids.objects;
    var n := NextId(Insert(slides, at, page));
    assert page.ids.objects + Fresh(n, 0) == page.ids.objects;
  }

  lemma ErasedInsertSlide(slides: seq<Slide>, at: nat, page: Slide)
    requires Ready(slides) && ReadySlide(page)
    ensures TombstonesIgnored(slides, InsertSlide(at, page))
  {
    var bare := Erase(slides);
    ErasedTwice(slides);
    ReadyStays(slides);
    ReadyStays(bare);
    ErasedPos(slides, page.ids.slide);
    if at <= |slides| && SlidePos(slides, page.ids.slide).None? {
      InsertSlideIs(slides, at, page);
      InsertSlideIs(bare, at, EraseSlide(page));
      CarriedIn(slides, at, page);
      CarriedIn(bare, at, EraseSlide(page));
      ErasedInsert(slides, at, page);
      ErasedInsert(bare, at, EraseSlide(page));
    }
  }

  lemma ErasedDeleteSlide(slides: seq<Slide>, slide: nat)
    requires Ready(slides)
    ensures TombstonesIgnored(slides, DeleteSlide(slide))
  {
    var bare := Erase(slides);
    ErasedTwice(slides);
    ReadyStays(slides);
    ReadyStays(bare);
    ErasedPos(slides, slide);
    var i := SlidePos(slides, slide);
    if i.Some? && |slides| > 1 {
      ErasedBury(Remove(slides, i.value), i.value, slides[i.value]);
      ErasedBury(Remove(bare, i.value), i.value, bare[i.value]);
      ErasedRemove(slides, i.value);
      ErasedRemove(bare, i.value);
      var o, e := Apply(slides, DeleteSlide(slide)), Apply(bare, DeleteSlide(slide));
      assert EraseOps(o.reply.value) == EraseOps(e.reply.value);
    }
  }

  lemma ErasedMoveSlide(slides: seq<Slide>, slide: nat, to: nat)
    requires Ready(slides)
    ensures TombstonesIgnored(slides, MoveSlide(slide, to))
  {
    var bare := Erase(slides);
    ErasedTwice(slides);
    ReadyStays(slides);
    ReadyStays(bare);
    ErasedPos(slides, slide);
    var i := SlidePos(slides, slide);
    if i.Some? && to < |slides| {
      ErasedRemove(slides, i.value);
      ErasedRemove(bare, i.value);
      ErasedInsert(Remove(slides, i.value), to, slides[i.value]);
      ErasedInsert(Remove(bare, i.value), to, bare[i.value]);
    }
  }

  lemma ErasedOneSlide(slides: seq<Slide>, op: Op)
    requires Ready(slides) && OnOneSlide(op)
    ensures TombstonesIgnored(slides, op)
  {
    hide Edit, Ops.Apply, EraseOps;
    var bare := Erase(slides);
    ErasedTwice(slides);
    ErasedPos(slides, op.slide);
    OneSlideIs(slides, op);
    OneSlideIs(bare, op);
    var i := SlidePos(slides, op.slide);
    if i.Some? {
      ErasedEdit(slides[i.value], op);
      var (t, reply) := Edit(slides[i.value], op);
      var (u, _) := Edit(bare[i.value], op);
      assert Erase(slides[i.value := t]) == bare[i.value := EraseSlide(t)];
      assert Erase(bare[i.value := u]) == bare[i.value := EraseSlide(u)];
    }
  }

  /** Applying `op` here and on the deck without tombstones comes to the same. */
  ghost predicate TombstonesIgnored(slides: seq<Slide>, op: Op) {
    var o, e := Apply(slides, op), Apply(Erase(slides), EraseOp(op));
    Erase(o.slides) == Erase(e.slides) && EraseReply(o.reply) == EraseReply(e.reply)
  }

  /** For an op that mints no id the tombstones make no difference: decks
      equal up to tombstones give equal decks, the same error, and inverses
      equal up to tombstones. */
  lemma ApplyIgnoresTombstones(slides: seq<Slide>, op: Op)
    requires Ready(slides) && Carrying(op)
    ensures TombstonesIgnored(slides, op)
  {
    match op
    case SetMaster(_, _) =>
      ErasedTwice(slides);
      ReadyStays(slides);
      ReadyStays(Erase(slides));
    case InsertSlide(at, page) => ErasedInsertSlide(slides, at, page);
    case DeleteSlide(slide) => ErasedDeleteSlide(slides, slide);
    case MoveSlide(slide, to) => ErasedMoveSlide(slides, slide, to);
    case _ => ErasedOneSlide(slides, op);
  }

  // ---------------------------------------------------------------- one op and its inverse

  /** Whether the inverse of `op` gives the deck back: an inserted object
      must not be one a build of its slide already names, for the inverse,
      a delete, takes those builds away. */
  predicate Undoable(slides: seq<Slide>, op: Op) {
    op.InsertObject? ==>
      var i := SlidePos(slides, op.slide);
      i.Some? ==> !NamesObject(slides[i.value].props.builds, op.id)
  }

  lemma {:induction false} WithoutNone(builds: seq<Build>, id: nat)
    ensures !NamesObject(builds, id) <==> WithoutObject(builds, id) == builds
    ensures |WithoutObject(builds, id)| <= |builds|
  {
    if builds != [] {
      WithoutNone(builds[1..], id);
      var rest := WithoutObject(builds[1..], id);
      if builds[0].target == id {
        assert builds[0] in builds;
      } else {
        assert WithoutObject(builds, id) == [builds[0]] + rest;
        assert WithoutObject(builds, id)[1..] == rest;
        assert NamesObject(builds, id) <==> NamesObject(builds[1..], id) by {
          assert forall b :: b in builds <==> b == builds[0] || b in builds[1..];
        }
      }
    }
  }

  /** Several ops on one slide, each on what the one before left. */
  function EditAll(s: Slide, ops: seq<Op>): Option<Slide>
    requires ReadySlide(s) && forall op :: op in ops ==> OnOneSlide(op)
    decreases |ops|
  {
    if ops == [] then Some(s)
    else
      var (t, reply) := Edit(s, ops[0]);
      if reply.Err? || !ReadySlide(t) then None else EditAll(t, ops[1..])
  }

  /** `u`, from the inverse of `op` on `s`, gives `s` back. */
  ghost predicate EditsBack(s: Slide, op: Op)
    requires ReadySlide(s) && OnOneSlide(op)
  {
    var (t, reply) := Edit(s, op);
    && ReadySlide(t)
    && reply.Ok?
    && (forall u :: u in reply.value ==> OnOneSlide(u) && u.slide == op.slide)
    && EditAll(t, reply.value).Some?
    && (EraseSlide(EditAll(t, reply.value).value) == EraseSlide(s) <==>
          (op.InsertObject? ==> !NamesObject(s.props.builds, op.id)))
  }

  lemma InsertObjectBack(s: Slide, op: Op)
    requires ReadySlide(s) && NoDup(s.ids.objects) && op.InsertObject? && Edit(s, op).1.Ok?
    ensures EditsBack(s, op)
  {
    var (t, reply) := Edit(s, op);
    NoDupInsert(s.ids.objects, op.at, op.id);
    IndexOfUnique(t.ids.objects, op.at);
    RemoveInsert(s.ids.objects, op.at, op.id);
    RemoveInsert(s.objects, op.at, op.what);
    WithoutNone(s.props.builds, op.id);
    var (back, _) := Edit(t, reply.value[0]);
    assert EditAll(t, reply.value) == EditAll(back, []);
  }

  lemma DeleteObjectBack(s: Slide, op: Op)
    requires ReadySlide(s) && NoDup(s.ids.objects) && op.DeleteObject?
    requires op.id in s.ids.objects
    ensures EditsBack(s, op)
  {
    hide NamesObject, WithoutObject;
    var (t, reply) := Edit(s, op);
    var at := IndexOf(s.ids.objects, op.id).value;
    RemovedOnce(s.ids.objects, op.id);
    InsertRemove(s.objects, at);
    WithoutNone(s.props.builds, op.id);
    var (mid, _) := Edit(t, reply.value[0]);
    assert mid.objects == s.objects && mid.ids.objects == s.ids.objects;
    assert EditAll(t, reply.value) == EditAll(mid, reply.value[1..]);
    if |reply.value| == 2 {
      var (back, _) := Edit(mid, reply.value[1]);
      assert EditAll(mid, reply.value[1..]) == EditAll(back, []);
    }
  }

  lemma MoveObjectBack(s: Slide, op: Op)
    requires ReadySlide(s) && NoDup(s.ids.objects) && op.MoveObject?
    requires op.id in s.ids.objects && op.to < |s.objects|
    ensures EditsBack(s, op)
  {
    var (t, reply) := Edit(s, op);
    var from := IndexOf(s.ids.objects, op.id).value;
    Moved(s.ids.objects, from, op.to);
    MovedUnique(s.ids.objects, from, op.to);
    Moved(s.objects, from, op.to);
    var (back, _) := Edit(t, reply.value[0]);
    assert EditAll(t, reply.value) == EditAll(back, []);
  }

  lemma SetBack(s: Slide, op: Op)
    requires ReadySlide(s) && (op.SetSlide? || (op.SetObject? && op.id in s.ids.objects))
    ensures EditsBack(s, op)
  {
    var (t, reply) := Edit(s, op);
    var (back, _) := Edit(t, reply.value[0]);
    assert back.objects == s.objects;
    assert EditAll(t, reply.value) == EditAll(back, []);
  }

  lemma EditInverse(s: Slide, op: Op)
    requires ReadySlide(s) && NoDup(s.ids.objects) && OnOneSlide(op)
    requires Edit(s, op).1.Ok? && Edit(s, op).1.value != []
    ensures EditsBack(s, op)
  {
    match op
    case InsertObject(_, _, _, _) => InsertObjectBack(s, op);
    case DeleteObject(_, _) => DeleteObjectBack(s, op);
    case MoveObject(_, _, _) => MoveObjectBack(s, op);
    case _ => SetBack(s, op);
  }
}
