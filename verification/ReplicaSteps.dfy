/** Recording an op, and a group, keeps document and deck in step; and the
    document then shows the deck. */
module ReplicaSteps {
  import opened Engine
  import opened Sequences
  import opened Ops
  import opened Numbering
  import opened OpLaws
  import opened GroupLaws
  import opened Inverses
  import opened Identity
  import opened Tree
  import opened Replicas
  import opened TreeLaws
  import opened RegisterLaws
  import opened ReplicaRel
  import opened ReplicaOps
  import opened ReplicaEdits
  import opened ReplicaSlides
  import opened ReplicaInsert

  // ---------------------------------------------------------------- what an op must meet

  /** The builds `op` sets name objects of the slide it sets them on. */
  predicate SetsLiveBuilds(deck: seq<Slide>, op: Op) {
    op.SetSlide? ==>
      var i := SlidePos(deck, op.slide);
      i.Some? ==> LiveBuilds(deck[i.value].(props := op.props))
  }

  /** A new edit: what it puts in is new, and its builds name live objects. */
  ghost predicate New(deck: seq<Slide>, op: Op) {
    && SetsLiveBuilds(deck, op)
    && (op.InsertSlide? ==> op.page.ids.slide == 0 && op.page.ids.objects == []
                            && (op.at <= |deck| ==> LiveBuilds(Inserted(deck, op.at, op.page))))
    && (op.InsertObject? ==> op.id !in Ids(deck))
  }

  /** An op of an undone or redone step: what it puts in, the document still has. */
  ghost predicate Back(deck: seq<Slide>, a: Past, op: Op) {
    && SetsLiveBuilds(deck, op)
    && (op.InsertSlide? ==> Sound(op.page) && LiveBuilds(op.page) && InGrave(a, op.page))
    && (op.InsertObject? ==> (op.slide, op.id) in a.tombs)
  }

  /** What the document keeps beyond the deck after `op` is recorded. */
  function StepPast(deck: seq<Slide>, a: Past, op: Op): Past {
    var reply := Apply(deck, op).reply;
    if reply.Err? || reply.value == [] then a
    else
      match op
      case InsertSlide(at, page) => if at <= |deck| then InsertPast(a, Inserted(deck, at, page)) else a
      case DeleteSlide(slide) =>
        var i := SlidePos(deck, slide);
        if i.Some? then DeletePast(a, deck[i.value]) else a
      case MoveSlide(_, _) => a
      case SetMaster(_, _) => a
      case _ =>
        var i := SlidePos(deck, op.slide);
        if i.Some? then EditPast(a, deck[i.value], op) else a
  }

  // ---------------------------------------------------------------- one op

  lemma PosOf(deck: seq<Slide>, i: nat, t: Slide, op: Op)
    requires OnOneSlide(op) && SlidePos(deck, op.slide) == Some(i) && t.ids.slide == deck[i].ids.slide
    ensures SlidePos(deck[i := t], op.slide) == Some(i)
  {
    SamePos(deck, i, t, op.slide);
  }

  lemma EditRecorded(r: Rep, a: Past, op: Op)
    requires OnOneSlide(op) && (New(r.deck, op) || Back(r.deck, a, op))
    requires Apply(r.deck, op).reply.Ok? && Apply(r.deck, op).reply.value != []
    requires Rel(r, a)
    ensures RecordOp(r, op).1 && Rel(RecordOp(r, op).0, StepPast(r.deck, a, op))
  {
    hide WellFormed, LiveKids, SlideRel, PastRel, SlidesRel, NodesOk, Insert, Place, SetDeleted, Neighbours, Rel, WriteOnSlide, Apply, Edit, Valid, KnownIds, DropStale, NamesObject;
    DeckValid(r, a);
    OneSlideIs(r.deck, op);
    var i := SlidePos(r.deck, op.slide).value;
    var s := r.deck[i];
    var t := Edit(s, op).0;
    KnownStays(r, a, i, op);
    PosOf(r.deck, i, t, op);
    LiveNode(r, a, i);
    EditEffective(s, op);
    match op
    case SetSlide(_, _) => SetSlideKept(r, a, i, op);
    case SetObject(_, _, _) => SetObjectKept(r, a, i, op);
    case MoveObject(_, _, _) => MoveObjectKept(r, a, i, op);
    case DeleteObject(_, _) => DeleteObjectKept(r, a, i, op);
    case InsertObject(_, at, id, _) =>
      if (op.slide, id) in a.tombs {
        InsertObjectKept(r, a, i, op);
      } else {
        InsertNewObjectKept(r, a, i, op);
      }
  }

  lemma DeckValid(r: Rep, a: Past)
    requires Rel(r, a)
    ensures Valid(r.deck) && Ready(r.deck)
  {
  }

  /** An edit with an inverse found what it names. */
  lemma EditEffective(s: Slide, op: Op)
    requires ReadySlide(s) && OnOneSlide(op) && Edit(s, op).1.Ok? && Edit(s, op).1.value != []
    ensures op.DeleteObject? || op.MoveObject? || op.SetObject? ==> op.id in s.ids.objects
    ensures op.MoveObject? ==> op.to < |s.objects|
    ensures op.InsertObject? ==> op.at <= |s.objects| && op.id !in s.ids.objects
  {
  }

  lemma SlideRecorded(r: Rep, a: Past, op: Op)
    requires !OnOneSlide(op) && (New(r.deck, op) || Back(r.deck, a, op))
    requires Apply(r.deck, op).reply.Ok? && Apply(r.deck, op).reply.value != []
    requires Rel(r, a)
    ensures RecordOp(r, op).1 && Rel(RecordOp(r, op).0, StepPast(r.deck, a, op))
  {
    hide WellFormed, LiveKids, SlideRel, PastRel, SlidesRel, NodesOk, Insert, Place, SetDeleted, Neighbours, Rel, Relocate, Bury;
    DeckValid(r, a);
    ReadyStays(r.deck);
    match op
    case InsertSlide(at, page) => InsertRecorded(r, a, at, page);
    case DeleteSlide(slide) =>
      DeleteSlideKept(r, a, SlidePos(r.deck, slide).value);
    case MoveSlide(slide, to) =>
      MoveSlideKept(r, a, SlidePos(r.deck, slide).value, to);
    case _ =>
  }

  lemma InsertRecorded(r: Rep, a: Past, at: nat, page: Slide)
    requires var op := InsertSlide(at, page);
             (New(r.deck, op) || Back(r.deck, a, op)) && Apply(r.deck, op).reply.Ok? && Apply(r.deck, op).reply.value != []
    requires Rel(r, a)
    ensures var op := InsertSlide(at, page);
            RecordOp(r, op).1 && Rel(RecordOp(r, op).0, StepPast(r.deck, a, op))
  {
    hide WellFormed, LiveKids, SlideRel, PastRel, SlidesRel, NodesOk, Insert, Place, SetDeleted, Neighbours, Rel, Write;
    DeckValid(r, a);
    ReadyStays(r.deck);
    assert at <= |r.deck| && (page.ids.slide == 0 || SlidePos(r.deck, page.ids.slide).None?);
    InsertSlideIs(r.deck, at, page);
    if New(r.deck, InsertSlide(at, page)) {
      InsertSlideNew(r, a, at, page, Inserted(r.deck, at, page));
    } else {
      CarriedIn(r.deck, at, page);
      InsertSlideBack(r, a, at, page);
    }
  }

  /** A new op, or one of an undone or redone step, that applies is recorded,
      and the document follows the deck. */
  lemma OpRecorded(r: Rep, a: Past, op: Op)
    requires Rel(r, a) && (New(r.deck, op) || Back(r.deck, a, op)) && Apply(r.deck, op).reply.Ok?
    ensures var (q, ok) := RecordOp(r, op);
            ok && Rel(q, StepPast(r.deck, a, op)) && q.deck == Apply(r.deck, op).slides
  {
    hide Apply, Rel, New, Back, Write;
    if Apply(r.deck, op).reply.value == [] {
      NoEffect(r, a, op);
      assert r.(deck := r.deck) == r;
    } else if OnOneSlide(op) {
      EditRecorded(r, a, op);
    } else {
      SlideRecorded(r, a, op);
    }
    WriteDeck(r.(deck := Apply(r.deck, op).slides), op);
  }

  lemma NoEffect(r: Rep, a: Past, op: Op)
    requires Rel(r, a) && Apply(r.deck, op).reply.Ok? && Apply(r.deck, op).reply.value == []
    ensures Apply(r.deck, op).slides == r.deck
  {
    hide Rel, Edit, Bury, Remove, Insert, Relocate;
    DeckValid(r, a);
    ReadyStays(r.deck);
    if OnOneSlide(op) {
      hide Ops.Apply;
      OneSlideIs(r.deck, op);
      var i := SlidePos(r.deck, op.slide);
      if i.Some? {
        EditNothing(r.deck[i.value], op);
        assert r.deck[i.value := r.deck[i.value]] == r.deck;
      }
    }
  }

  /** Writing leaves the replica's own deck alone. */
  lemma WriteDeck(r: Rep, op: Op)
    ensures Write(r, op).deck == r.deck
  {
    hide Place, WriteSlide, WriteObject, SetDeleted, Create, Order;
    if op.InsertSlide? && op.at < |r.deck| {
      var s := r.deck[op.at];
      var (prev, next) := Neighbours(r.nodes, SlideIdsOf(r.deck), op.at);
      var (q, n) := Housed(r, s.ids.slide, op.page.ids.slide != 0, ROOT, prev, next);
      HouseDeck(q, n, s.objects, s.ids.objects);
    }
  }

  lemma {:induction false} HouseDeck(r: Rep, p: TreeID, objects: seq<SlideObject>, ids: seq<nat>)
    ensures HouseObjects(r, p, objects, ids).0.deck == r.deck
    decreases |objects|
  {
    hide Place, WriteSlide, WriteObject, SetDeleted, Create;
    if objects != [] && ids != [] {
      var (q, n) :=
        if ids[0] in r.nodes then (r.(doc := SetDeleted(r.doc, r.nodes[ids[0]], false)), r.nodes[ids[0]])
        else Housed(r, ids[0], false, p, None, None);
      HouseDeck(q.(doc := WriteObject(q.doc, n, objects[0])), p, objects[1..], ids[1..]);
    }
  }
}
