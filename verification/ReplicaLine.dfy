/** Whole runs of edits, undos and redos, each recorded: what a step's undo
    needs, the document still has. */
module ReplicaLine {
  import opened Engine
  import opened Sequences
  import opened Ops
  import opened Numbering
  import opened OpLaws
  import opened GroupLaws
  import opened Inverses
  import opened GroupUndo
  import Identity
  import opened Timeline
  import opened Tree
  import opened Replicas
  import opened ReplicaRel
  import opened ReplicaOps
  import opened ReplicaEdits
  import opened ReplicaSlides
  import opened ReplicaInsert
  import opened ReplicaSteps
  import opened ReplicaShows

  // ---------------------------------------------------------------- groups

  function After(deck: seq<Slide>, ops: seq<Op>): seq<Slide>
    decreases |ops|
  {
    if ops == [] then deck else After(Apply(deck, ops[0]).slides, ops[1..])
  }

  function StepAll(deck: seq<Slide>, a: Past, ops: seq<Op>): Past
    decreases |ops|
  {
    if ops == [] then a else StepAll(Apply(deck, ops[0]).slides, StepPast(deck, a, ops[0]), ops[1..])
  }

  /** Each op of the group, where it is applied, is a new edit. */
  ghost predicate NewAll(deck: seq<Slide>, ops: seq<Op>)
    decreases |ops|
  {
    ops == [] || (New(deck, ops[0]) && NewAll(Apply(deck, ops[0]).slides, ops[1..]))
  }

  /** Or finds in the document what it puts back. */
  ghost predicate BackAll(deck: seq<Slide>, a: Past, ops: seq<Op>)
    decreases |ops|
  {
    ops == [] || (Back(deck, a, ops[0]) && BackAll(Apply(deck, ops[0]).slides, StepPast(deck, a, ops[0]), ops[1..]))
  }

  /** The steps of `stack`, from the last on: each finds what it puts back,
      and leaves no old builds behind. */
  ghost predicate Stacked(deck: seq<Slide>, a: Past, stack: seq<seq<Op>>)
    decreases |stack|
  {
    stack == [] || (
      var ops := Last(stack);
      && BackAll(deck, a, ops)
      && Settled(After(deck, ops), StepAll(deck, a, ops))
      && Stacked(After(deck, ops), StepAll(deck, a, ops), Init(stack)))
  }

  /** `b` has all an undo may need that `a` has, and no more that is stale. */
  ghost predicate Better(a: Past, b: Past) {
    && b.stale <= a.stale
    && a.tombs <= b.tombs
    && forall s :: s in a.graves ==> s in b.graves && b.graves[s] == a.graves[s]
  }

  lemma BetterTwice(a: Past, b: Past, c: Past)
    requires Better(a, b) && Better(b, c)
    ensures Better(a, c)
  {
  }

  // ---------------------------------------------------------------- decks equal up to tombstones

  lemma SameSlideFacts(a: seq<Slide>, b: seq<Slide>, id: nat)
    requires Erase(a) == Erase(b)
    ensures SlidePos(a, id) == SlidePos(b, id)
    ensures var i := SlidePos(a, id); i.Some? ==>
              var s, t := a[i.value], b[i.value];
              EraseSlide(s) == EraseSlide(t) && s.props == t.props && s.ids.objects == t.ids.objects && s.ids.slide == t.ids.slide
              && s.objects == t.objects
  {
    SameErased(a, b);
    ErasedPos(a, id);
    ErasedPos(b, id);
  }

  lemma SettledErased(a: seq<Slide>, b: seq<Slide>, p: Past, q: Past)
    requires Erase(a) == Erase(b) && Settled(a, p) && Better(p, q)
    ensures Settled(b, q)
  {
    SameErased(a, b);
    forall s, x | s in b && x in s.ids.objects
      ensures (s.ids.slide, x) !in q.stale
    {
      var i :| 0 <= i < |b| && b[i] == s;
      assert EraseSlide(a[i]) == EraseSlide(b[i]);
      assert a[i] in a && x in a[i].ids.objects && a[i].ids.slide == s.ids.slide;
    }
  }

  lemma BackErased(a: seq<Slide>, b: seq<Slide>, p: Past, q: Past, op: Op, like: Op)
    requires Erase(a) == Erase(b) && Better(p, q) && Back(a, p, op) && EraseOp(op) == EraseOp(like)
    ensures Back(b, q, like)
  {
    LikeOp(op, like);
    if op.SetSlide? {
      SameSlideFacts(a, b, op.slide);
    }
  }

  /** Ops the same up to the tombstones a page brings. */
  lemma LikeOp(op: Op, like: Op)
    requires EraseOp(op) == EraseOp(like)
    ensures !op.InsertSlide? ==> like == op
    ensures op.InsertSlide? ==> like.InsertSlide? && like.at == op.at && like.page == op.page.(ids := like.page.ids)
                                && like.page.ids == op.page.ids.(deleted := like.page.ids.deleted)
  {
    if op.InsertSlide? {
      assert EraseSlide(op.page) == EraseSlide(like.page);
    }
  }

  lemma EditPastBetter(p: Past, q: Past, s: Slide, t: Slide, op: Op)
    requires Better(p, q) && OnOneSlide(op) && s.props == t.props && s.ids.slide == t.ids.slide
    ensures Better(EditPast(p, s, op), EditPast(q, t, op))
  {
  }

  lemma SlidePastBetter(p: Past, q: Past, s: Slide, t: Slide)
    requires Better(p, q) && s.ids.slide == t.ids.slide && s.ids.objects == t.ids.objects
    ensures Better(DeletePast(p, s), DeletePast(q, t)) && Better(InsertPast(p, s), InsertPast(q, t))
  {
    assert ObjectSet(s) == ObjectSet(t);
  }

  lemma PastErased(a: seq<Slide>, b: seq<Slide>, p: Past, q: Past, op: Op, like: Op)
    requires Erase(a) == Erase(b) && Better(p, q) && Carrying(op) && EraseOp(op) == EraseOp(like)
    requires var x, y := Apply(a, op).reply, Apply(b, like).reply; x.Ok? == y.Ok? && (x.Ok? ==> |x.value| == |y.value|)
    ensures Better(StepPast(a, p, op), StepPast(b, q, like))
  {
    hide Ops.Apply, Erase, EraseSlide, NamesObject, EditPast, DeletePast, InsertPast, Better, Inserted, AssignIds, Ready, EraseOp;
    LikeOp(op, like);
    SameErased(a, b);
    match op
    case SetMaster(_, _) =>
    case InsertSlide(at, page) =>
      if at <= |a| {
        CarriedIn(a, at, page);
        CarriedIn(b, at, like.page);
        SlidePastBetter(p, q, page, like.page);
      }
    case DeleteSlide(slide) =>
      SameSlideFacts(a, b, slide);
      var i := SlidePos(a, slide);
      if i.Some? {
        SlidePastBetter(p, q, a[i.value], b[i.value]);
      }
    case MoveSlide(_, _) =>
    case _ =>
      SameSlideFacts(a, b, op.slide);
      var i := SlidePos(a, op.slide);
      if i.Some? {
        EditPastBetter(p, q, a[i.value], b[i.value], op);
      }
  }

  lemma StepErased(a: seq<Slide>, b: seq<Slide>, p: Past, q: Past, op: Op, like: Op)
    requires Erase(a) == Erase(b) && Ready(a) && Better(p, q) && Carrying(op) && EraseOp(op) == EraseOp(like)
    ensures Erase(Apply(a, op).slides) == Erase(Apply(b, like).slides) && Ready(Apply(a, op).slides)
    ensures Better(StepPast(a, p, op), StepPast(b, q, like))
  {
    hide Apply, Erase, EraseSlide, NamesObject, StepPast, EraseOp;
    SameErased(a, b);
    LikeOp(op, like);
    ApplyIgnoresTombstones(a, op);
    ApplyIgnoresTombstones(b, like);
    ReadyAfter(a, op);
    ReplyLike(Apply(a, op).reply, Apply(b, like).reply);
    PastErased(a, b, p, q, op, like);
  }

  lemma ReplyLike(x: Reply, y: Reply)
    requires EraseReply(x) == EraseReply(y)
    ensures x.Ok? == y.Ok? && (x.Ok? ==> |x.value| == |y.value|)
  {
    if x.Ok? && y.Ok? {
      assert |EraseOps(x.value)| == |x.value| && |EraseOps(y.value)| == |y.value|;
    }
  }

  lemma BackCarries(deck: seq<Slide>, a: Past, op: Op)
    requires Back(deck, a, op)
    ensures Carrying(op)
  {
  }

  /** What a group needs, a better past on the same deck has too. */
  lemma {:induction false} BackAllErased(a: seq<Slide>, b: seq<Slide>, p: Past, q: Past, ops: seq<Op>, like: seq<Op>)
    requires Erase(a) == Erase(b) && Ready(a) && Better(p, q) && BackAll(a, p, ops) && EraseOps(ops) == EraseOps(like)
    ensures BackAll(b, q, like) && Erase(After(a, ops)) == Erase(After(b, like)) && Ready(After(a, ops))
    ensures Better(StepAll(a, p, ops), StepAll(b, q, like))
    decreases |ops|
  {
    hide Apply, Erase, Ready, Better, StepPast, Back, EraseOp;
    ErasedTail(ops, like);
    if ops != [] {
      BackErased(a, b, p, q, ops[0], like[0]);
      BackCarries(a, p, ops[0]);
      StepErased(a, b, p, q, ops[0], like[0]);
      BackAllErased(Apply(a, ops[0]).slides, Apply(b, like[0]).slides, StepPast(a, p, ops[0]), StepPast(b, q, like[0]),
                    ops[1..], like[1..]);
    }
  }

  /** Steps the same up to the tombstones their pages bring. */
  ghost predicate LikeSteps(stack: seq<seq<Op>>, like: seq<seq<Op>>) {
    |stack| == |like| && forall k :: 0 <= k < |stack| ==> EraseOps(stack[k]) == EraseOps(like[k])
  }

  lemma {:induction false} StackedErased(a: seq<Slide>, b: seq<Slide>, p: Past, q: Past, stack: seq<seq<Op>>, like: seq<seq<Op>>)
    requires Erase(a) == Erase(b) && Ready(a) && Better(p, q) && Stacked(a, p, stack) && LikeSteps(stack, like)
    ensures Stacked(b, q, like)
    decreases |stack|
  {
    hide After, StepAll, Erase, Ready, Better, BackAll, Settled, EraseOps;
    if stack != [] {
      var ops, more := Last(stack), Last(like);
      BackAllErased(a, b, p, q, ops, more);
      SettledErased(After(a, ops), After(b, more), StepAll(a, p, ops), StepAll(b, q, more));
      StackedErased(After(a, ops), After(b, more), StepAll(a, p, ops), StepAll(b, q, more), Init(stack), Init(like));
    }
  }

  lemma {:induction false} BackAllJoined(deck: seq<Slide>, a: Past, xs: seq<Op>, ys: seq<Op>)
    requires BackAll(deck, a, xs) && BackAll(After(deck, xs), StepAll(deck, a, xs), ys)
    ensures BackAll(deck, a, xs + ys)
    ensures After(deck, xs + ys) == After(After(deck, xs), ys)
    ensures StepAll(deck, a, xs + ys) == StepAll(After(deck, xs), StepAll(deck, a, xs), ys)
    decreases |xs|
  {
    hide Apply, Back, StepPast;
    if xs == [] {
      assert xs + ys == ys;
    } else {
      Tail(xs, ys);
      BackAllJoined(Apply(deck, xs[0]).slides, StepPast(deck, a, xs[0]), xs[1..], ys);
    }
  }

  // ---------------------------------------------------------------- an op and its inverse

  lemma {:induction false} AfterIs(doc: Doc, ops: seq<Op>)
    requires Ready(doc.slides) && ApplyAll(doc, ops).reply.Ok?
    ensures After(doc.slides, ops) == ApplyAll(doc, ops).doc.slides && Ready(After(doc.slides, ops))
    decreases |ops|
  {
    hide Apply, Ready;
    if ops != [] {
      OpIs(doc, ops[0]);
      AfterIs(ApplyDoc(doc, ops[0]).doc, ops[1..]);
    }
  }

  /** On the slides an op does what it does on the document. */
  lemma OpIs(doc: Doc, op: Op)
    requires Ready(doc.slides)
    ensures Apply(doc.slides, op).slides == ApplyDoc(doc, op).doc.slides && Ready(Apply(doc.slides, op).slides)
    ensures ApplyDoc(doc, op).reply.Ok? ==> Apply(doc.slides, op).reply.Ok?
    ensures !op.SetMaster? ==> Apply(doc.slides, op).reply == ApplyDoc(doc, op).reply
  {
    ReadyStays(doc.slides);
    ReadyAfter(doc.slides, op);
  }

  lemma GravesApart(r: Rep, a: Past)
    requires Rel(r, a)
    ensures forall g :: g in a.graves ==> g !in SlideIdsOf(r.deck) && g in r.nodes
  {
    hide LiveKids, WellFormed, SlidesRel, RootRel, NodesOk, Valid, IsDeleted, InSet;
    forall g | g in a.graves
      ensures g !in SlideIdsOf(r.deck) && g in r.nodes
    {
      assert GraveRel(r.doc, r.nodes, g, a.graves[g]);
      NotShown(r.doc, r.nodes, r.deck, g, r.nodes[g]);
    }
  }

  /** Live slides and objects are not kept as deleted. */
  lemma LiveApart(r: Rep, a: Past, i: nat)
    requires Rel(r, a) && i < |r.deck|
    ensures r.deck[i].ids.slide !in a.graves && LiveBuilds(r.deck[i]) && Sound(r.deck[i])
    ensures forall x :: x in r.deck[i].ids.objects ==> (r.deck[i].ids.slide, x) !in a.tombs
  {
    hide LiveKids, WellFormed, RegsRel, RootRel, KidsRel, ReadBuilds, Stored, KeepNodes, IsDeleted;
    LiveNode(r, a, i);
    var s := r.deck[i];
    assert s in r.deck;
    GravesApart(r, a);
    assert SlideIdsOf(r.deck)[i] in SlideIdsOf(r.deck);
    forall x | x in s.ids.objects
      ensures (s.ids.slide, x) !in a.tombs
    {
      var k :| 0 <= k < |s.ids.objects| && s.ids.objects[k] == x;
      ObjectNode(r, a, i, k);
      assert !TombRel(r.doc, r.nodes, s.ids.slide, x);
    }
  }

  /** `inv`, on what `op` left, finds what it puts back, and leaves a past at
      least as good as before. */
  ghost predicate Returns(deck: seq<Slide>, a: Past, now: seq<Slide>, b: Past, inv: seq<Op>) {
    BackAll(now, b, inv) && Better(a, StepAll(now, b, inv))
  }

  lemma ReturnsOne(deck: seq<Slide>, a: Past, now: seq<Slide>, b: Past, op: Op)
    requires Back(now, b, op) && Better(a, StepPast(now, b, op))
    ensures Returns(deck, a, now, b, [op])
  {
    hide Back, Better, StepPast, Apply;
    var next := Apply(now, op).slides;
    assert [op][1..] == [];
    assert BackAll(next, StepPast(now, b, op), []);
    assert StepAll(next, StepPast(now, b, op), []) == StepPast(now, b, op);
  }

  lemma InsertSlideReturns(r: Rep, a: Past, at: nat, page: Slide)
    requires at <= |r.deck| && (page.ids.slide == 0 || SlidePos(r.deck, page.ids.slide).None?) && NoDup(page.ids.objects)
    requires New(r.deck, InsertSlide(at, page)) || Back(r.deck, a, InsertSlide(at, page))
    requires Rel(r, a)
    ensures var s := Inserted(r.deck, at, page);
            Returns(r.deck, a, Insert(r.deck, at, s), InsertPast(a, s), [DeleteSlide(s.ids.slide)])
  {
    hide LiveKids, WellFormed, SlidesRel, RootRel, Inserted, Returns, PastRel, NodesOk, Apply, Insert, New;
    InsertedIsApart(r.deck, at, page);
    var s := Inserted(r.deck, at, page);
    var now := Insert(r.deck, at, s);
    ValidInserted(r.deck, at, s);
    InsertedAt(r.deck, at, s);
    PosIs(now, at);
    var b := InsertPast(a, s);
    InsertedPast(r, a, at, page, s);
    DeletesAgain(now, b, at);
    assert Better(a, DeletePast(b, s));
    assert Back(now, b, DeleteSlide(s.ids.slide));
    ReturnsOne(r.deck, a, now, b, DeleteSlide(s.ids.slide));
  }

  /** If the slide was in a grave it holds what the grave did. */
  lemma InsertedPast(r: Rep, a: Past, at: nat, page: Slide, s: Slide)
    requires at <= |r.deck| && s == Inserted(r.deck, at, page)
    requires New(r.deck, InsertSlide(at, page)) || Back(r.deck, a, InsertSlide(at, page))
    requires Rel(r, a)
    ensures s.ids.slide in a.graves ==> a.graves[s.ids.slide] == ObjectSet(s)
  {
    hide LiveKids, WellFormed, SlidesRel, RootRel, Inserted, PastRel, NodesOk;
    GravesApart(r, a);
    if New(r.deck, InsertSlide(at, page)) {
      FreshIds(r.deck, at, page);
    } else {
      CarriedIn(r.deck, at, page);
    }
  }

  lemma DeletesAgain(now: seq<Slide>, b: Past, at: nat)
    requires Valid(now) && |now| > 1 && at < |now|
    ensures StepPast(now, b, DeleteSlide(now[at].ids.slide)) == DeletePast(b, now[at])
  {
    hide DeletePast;
    PosIs(now, at);
    ReadyStays(now);
  }

  lemma DeleteSlideReturns(r: Rep, a: Past, i: nat)
    requires Rel(r, a) && i < |r.deck| && |r.deck| > 1
    ensures Returns(r.deck, a, Bury(Remove(r.deck, i), i, r.deck[i]), DeletePast(a, r.deck[i]), [InsertSlide(i, r.deck[i])])
  {
    hide LiveKids, WellFormed, SlidesRel, RootRel, Returns, PastRel, NodesOk, LiveBuilds, Apply, Insert, Bury, Inserted;
    var s := r.deck[i];
    var now := Bury(Remove(r.deck, i), i, s);
    var b := DeletePast(a, s);
    LiveApart(r, a, i);
    BackIn(r.deck, i);
    CarriedIn(now, i, s);
    BackSlide(now, b, i, s);
    assert StepPast(now, b, InsertSlide(i, s)) == InsertPast(b, s);
    ReturnsOne(r.deck, a, now, b, InsertSlide(i, s));
  }

  lemma BackSlide(now: seq<Slide>, b: Past, i: nat, s: Slide)
    requires Sound(s) && LiveBuilds(s) && InGrave(b, s)
    ensures Back(now, b, InsertSlide(i, s))
  {
  }

  /** An inverse op on the slide an edit left as `t`. */
  lemma EditStep(deck: seq<Slide>, i: nat, t: Slide, b: Past, op: Op)
    requires Ready(deck) && i < |deck| && ReadySlide(t) && t.ids.slide == deck[i].ids.slide && OnOneSlide(op)
    requires SlidePos(deck, op.slide) == Some(i) && Edit(t, op).1.Ok? && Edit(t, op).1.value != []
    ensures Apply(deck[i := t], op).slides == deck[i := Edit(t, op).0] && StepPast(deck[i := t], b, op) == EditPast(b, t, op)
    ensures SlidePos(deck[i := t], op.slide) == Some(i) && Ready(deck[i := t])
  {
    hide Edit, EditPast;
    PosOf(deck, i, t, op);
    OneSlideIs(deck[i := t], op);
    assert deck[i := t][i := Edit(t, op).0] == deck[i := Edit(t, op).0];
  }

  lemma EditReturns(r: Rep, a: Past, i: nat, op: Op)
    requires OnOneSlide(op) && Undoable(r.deck, op) && i < |r.deck| && ReadySlide(r.deck[i]) && SlidePos(r.deck, op.slide) == Some(i)
    requires Edit(r.deck[i], op).1.Ok? && Edit(r.deck[i], op).1.value != []
    requires Rel(r, a)
    ensures var (t, reply) := Edit(r.deck[i], op);
            Returns(r.deck, a, r.deck[i := t], EditPast(a, r.deck[i], op), reply.value)
  {
    hide Rel, Returns, Ops.Apply, BackAll, StepAll, After, LiveBuilds;
    DeckValid(r, a);
    LiveApart(r, a, i);
    var s := r.deck[i];
    var (t, reply) := Edit(s, op);
    ValidUpdatedBy(r.deck, i, op);
    EffectiveEdit(s, op);
    var inv := reply.value;
    var now := r.deck[i := t];
    var b := EditPast(a, s, op);
    EditEffective(s, op);
    EditStep(r.deck, i, t, b, inv[0]);
    if op.DeleteObject? {
      DeleteReturns(r, a, i, op, t, b, inv);
    } else {
      assert inv == [inv[0]];
      assert now[i] == t;
      ReturnsOne(r.deck, a, now, b, inv[0]);
    }
  }

  lemma DeleteReturns(r: Rep, a: Past, i: nat, op: Op, t: Slide, b: Past, inv: seq<Op>)
    requires op.DeleteObject? && i < |r.deck| && ReadySlide(r.deck[i]) && SlidePos(r.deck, op.slide) == Some(i)
    requires Sound(r.deck[i]) && op.id in r.deck[i].ids.objects && Edit(r.deck[i], op) == (t, Ok(inv)) && b == EditPast(a, r.deck[i], op)
    requires Ready(r.deck) && LiveBuilds(r.deck[i]) && (op.slide, op.id) !in a.tombs && ReadySlide(t)
    ensures Returns(r.deck, a, r.deck[i := t], b, inv)
  {
    hide LiveBuilds, Ready, StepPast, Apply, Returns, Back, BackAll, StepAll, After;
    var s := r.deck[i];
    var now := r.deck[i := t];
    var u := Edit(t, inv[0]).0;
    DeleteInverse(s, op, t, inv, u);
    EditStep(r.deck, i, t, b, inv[0]);
    var c := EditPast(b, t, inv[0]);
    assert Back(now, b, inv[0]) by { BackObject(now, b, inv[0]); }
    if |inv| == 1 {
      assert Better(a, c);
      ReturnsOne(r.deck, a, now, b, inv[0]);
    } else {
      BuildsBack(r.deck, a, i, op, u, c, inv[1]);
      assert inv[1..] == [inv[1]];
      ReturnsTwo(r.deck, a, now, b, inv, r.deck[i := u], c);
    }
  }

  /** After the object, its builds. */
  lemma BuildsBack(deck: seq<Slide>, a: Past, i: nat, op: Op, u: Slide, c: Past, back: Op)
    requires op.DeleteObject? && i < |deck| && Ready(deck) && LiveBuilds(deck[i]) && SlidePos(deck, op.slide) == Some(i)
    requires ReadySlide(u) && u.ids.objects == deck[i].ids.objects && u.ids.slide == deck[i].ids.slide
    requires back == SetSlide(op.slide, deck[i].props) && Better(a, EditPast(c, u, back))
    ensures Returns(deck, a, deck[i := u], c, [back])
  {
    hide LiveBuilds, Ready, StepPast, Apply, Returns, Back, BackAll, StepAll, After, Better, EditPast;
    EditStep(deck, i, u, c, back);
    LiveBuildsSame(deck[i], u);
    assert deck[i := u][i] == u;
    BackSet(deck[i := u], c, back, i);
    ReturnsOne(deck, a, deck[i := u], c, back);
  }

  lemma BackObject(now: seq<Slide>, b: Past, op: Op)
    requires op.InsertObject? && (op.slide, op.id) in b.tombs
    ensures Back(now, b, op)
  {
  }

  lemma BackSet(now: seq<Slide>, b: Past, op: Op, i: nat)
    requires op.SetSlide? && SlidePos(now, op.slide) == Some(i) && LiveBuilds(now[i].(props := op.props))
    ensures Back(now, b, op)
  {
  }

  lemma ReturnsTwo(deck: seq<Slide>, a: Past, now: seq<Slide>, b: Past, inv: seq<Op>, next: seq<Slide>, c: Past)
    requires inv != [] && Back(now, b, inv[0]) && next == Apply(now, inv[0]).slides && c == StepPast(now, b, inv[0])
    requires Returns(deck, a, next, c, inv[1..])
    ensures Returns(deck, a, now, b, inv)
  {
    hide Back, Better, StepPast, Apply;
  }

  /** The inverse of a delete: the object back where it was, then its builds. */
  lemma DeleteInverse(s: Slide, op: Op, t: Slide, inv: seq<Op>, u: Slide)
    requires op.DeleteObject? && Sound(s) && op.id in s.ids.objects && Edit(s, op) == (t, Ok(inv)) && ReadySlide(t)
    requires u == Edit(t, inv[0]).0
    ensures ReadySlide(u) && u.ids.objects == s.ids.objects && u.ids.slide == s.ids.slide
    ensures Edit(t, inv[0]).1.Ok? && Edit(t, inv[0]).1.value != []
    ensures inv[0].InsertObject? && inv[0].slide == op.slide && inv[0].id == op.id
    ensures if NamesObject(s.props.builds, op.id) then inv == [inv[0], SetSlide(op.slide, s.props)] else inv == [inv[0]]
  {
    RemovedOnce(s.ids.objects, op.id);
  }

  lemma LiveBuildsSame(s: Slide, u: Slide)
    requires LiveBuilds(s) && u.ids.objects == s.ids.objects
    ensures LiveBuilds(u.(props := s.props))
  {
  }

  lemma OpErases(doc: Doc, op: Op)
    requires Valid(doc.slides) && Fits(op) && Undoable(doc.slides, op) && ApplyDoc(doc, op).reply.Ok?
    ensures var o := ApplyDoc(doc, op); Erase(After(o.doc.slides, o.reply.value)) == Erase(doc.slides)
  {
    hide Apply, Erase, Valid, ApplyDoc;
    var o := ApplyDoc(doc, op);
    InverseRestores(doc, op);
    ValidReady(doc.slides);
    OpIs(doc, op);
    AfterIs(o.doc, o.reply.value);
  }

  lemma ValidReady(slides: seq<Slide>)
    requires Valid(slides)
    ensures Ready(slides)
  {
  }

  lemma OpReturnsTo(r: Rep, a: Past, op: Op)
    requires Fits(op) && Undoable(r.deck, op) && Apply(r.deck, op).reply.Ok? && Apply(r.deck, op).reply.value != []
    requires New(r.deck, op) || Back(r.deck, a, op)
    requires Rel(r, a)
    ensures var o := Apply(r.deck, op); Returns(r.deck, a, o.slides, StepPast(r.deck, a, op), o.reply.value)
  {
    hide Rel, Returns, New, Back, Edit, Better, EditPast, Inserted, Bury, Remove, Insert, Relocate, InsertPast, DeletePast, Undoable;
    DeckValid(r, a);
    ReadyStays(r.deck);
    match op
    case SetMaster(_, _) =>
    case InsertSlide(at, page) =>
      InsertSlideIs(r.deck, at, page);
      InsertSlideReturns(r, a, at, page);
    case DeleteSlide(slide) => DeleteSlideReturns(r, a, SlidePos(r.deck, slide).value);
    case MoveSlide(slide, to) =>
      var o := Apply(r.deck, op);
      assert o.reply.value == [o.reply.value[0]];
      MoveReturns(r, a, o.slides, o.reply.value[0]);
    case _ => EditReturnsTo(r, a, op);
  }

  lemma EditReturnsTo(r: Rep, a: Past, op: Op)
    requires OnOneSlide(op) && Undoable(r.deck, op) && Apply(r.deck, op).reply.Ok? && Apply(r.deck, op).reply.value != []
    requires Rel(r, a)
    ensures var o := Apply(r.deck, op); Returns(r.deck, a, o.slides, StepPast(r.deck, a, op), o.reply.value)
  {
    hide Rel, Returns, Apply, Edit, EditPast, Undoable;
    DeckValid(r, a);
    OneSlideIs(r.deck, op);
    EditReturns(r, a, SlidePos(r.deck, op.slide).value, op);
  }

  /** The inverse of a recorded op finds in the document what it puts back,
      and gives the deck back up to tombstones, with a past at least as good. */
  lemma OpReturns(r: Rep, a: Past, doc: Doc, op: Op)
    requires doc.slides == r.deck && Fits(op) && Undoable(r.deck, op) && ApplyDoc(doc, op).reply.Ok?
    requires New(r.deck, op) || Back(r.deck, a, op)
    requires Rel(r, a)
    ensures var o := ApplyDoc(doc, op);
            && Returns(r.deck, a, o.doc.slides, StepPast(r.deck, a, op), o.reply.value)
            && Erase(After(o.doc.slides, o.reply.value)) == Erase(r.deck)
  {
    hide Rel, Returns, New, Back, Better, After, Undoable, Apply;
    DeckValid(r, a);
    OpErases(doc, op);
    OpIs(doc, op);
    var o := ApplyDoc(doc, op);
    if op.SetMaster? {
      ReadyStays(r.deck);
      MasterStep(r.deck, a, op);
      assert o.reply.value == [o.reply.value[0]];
      MasterReturns(r, a, o.reply.value[0]);
    } else if o.reply.value == [] {
      NothingReturns(r, a, o.doc.slides, StepPast(r.deck, a, op));
    } else {
      OpReturnsTo(r, a, op);
    }
  }

  lemma MasterStep(deck: seq<Slide>, a: Past, op: Op)
    requires op.SetMaster?
    ensures StepPast(deck, a, op) == a
  {
  }

  lemma NothingReturns(r: Rep, a: Past, now: seq<Slide>, b: Past)
    requires b == a
    ensures Returns(r.deck, a, now, b, [])
  {
  }

  lemma MasterReturns(r: Rep, a: Past, op: Op)
    requires op.SetMaster?
    ensures Returns(r.deck, a, r.deck, a, [op])
  {
    ReturnsOne(r.deck, a, r.deck, a, op);
  }

  lemma MoveReturns(r: Rep, a: Past, now: seq<Slide>, op: Op)
    requires op.MoveSlide?
    ensures Returns(r.deck, a, now, a, [op])
  {
    ReturnsOne(r.deck, a, now, a, op);
  }

  // ---------------------------------------------------------------- a group and its inverse

  /** Each op of the group is new, or finds what it puts back. */
  ghost predicate NewOrBack(deck: seq<Slide>, a: Past, ops: seq<Op>)
    decreases |ops|
  {
    ops == [] || (
      && (New(deck, ops[0]) || Back(deck, a, ops[0]))
      && NewOrBack(Apply(deck, ops[0]).slides, StepPast(deck, a, ops[0]), ops[1..]))
  }

  lemma {:induction false} BackEither(deck: seq<Slide>, a: Past, ops: seq<Op>)
    requires BackAll(deck, a, ops)
    ensures NewOrBack(deck, a, ops)
    decreases |ops|
  {
    hide Apply, StepPast, Back, New;
    if ops != [] {
      BackEither(Apply(deck, ops[0]).slides, StepPast(deck, a, ops[0]), ops[1..]);
    }
  }

  lemma {:induction false} NewEither(deck: seq<Slide>, a: Past, ops: seq<Op>)
    requires NewAll(deck, ops)
    ensures NewOrBack(deck, a, ops)
    decreases |ops|
  {
    hide Apply, StepPast, Back, New;
    if ops != [] {
      NewEither(Apply(deck, ops[0]).slides, StepPast(deck, a, ops[0]), ops[1..]);
    }
  }

  /** A group that applied is recorded whole. */
  lemma {:induction false} OpsRecorded(r: Rep, a: Past, doc: Doc, ops: seq<Op>)
    requires doc.slides == r.deck && NewOrBack(r.deck, a, ops) && ApplyAll(doc, ops).reply.Ok?
    requires Rel(r, a)
    ensures var (q, ok) := RecordOps(r, ops);
            ok && Rel(q, StepAll(r.deck, a, ops)) && q.deck == ApplyAll(doc, ops).doc.slides
    decreases |ops|
  {
    hide Rel, New, Back, StepPast, Apply, RecordOp;
    if ops != [] {
      DeckValid(r, a);
      OpIs(doc, ops[0]);
      OpRecorded(r, a, ops[0]);
      var (q, ok) := RecordOp(r, ops[0]);
      OpsRecorded(q, StepPast(r.deck, a, ops[0]), ApplyDoc(doc, ops[0]).doc, ops[1..]);
    }
  }

  /** The slides shown are live already, unless all were deleted. */
  lemma {:induction false} AllAlive(d: Loro, nodes: Nodes, deck: seq<Slide>)
    requires forall s :: s in deck && s.ids.slide in nodes ==> !IsDeleted(d, nodes[s.ids.slide])
    ensures ReviveShown(d, nodes, deck) == d
  {
    if deck != [] {
      assert deck[0] in deck;
      AllAlive(d, nodes, deck[1..]);
    }
  }

  lemma GroupRecorded(r: Rep, a: Past, doc: Doc, ops: seq<Op>)
    requires doc.slides == r.deck && NewOrBack(r.deck, a, ops) && ApplyAll(doc, ops).reply.Ok?
    requires Rel(r, a)
    ensures var (q, ok) := RecordGroup(r, ops);
            ok && Rel(q, StepAll(r.deck, a, ops)) && q.deck == ApplyAll(doc, ops).doc.slides
  {
    hide Rel, IsDeleted, RecordOps, ReviveShown;
    forall s | s in r.deck && s.ids.slide in r.nodes
      ensures !IsDeleted(r.doc, r.nodes[s.ids.slide])
    {
      var j :| 0 <= j < |r.deck| && r.deck[j] == s;
      LiveNode(r, a, j);
    }
    AllAlive(r.doc, r.nodes, r.deck);
    assert r.(doc := r.doc) == r;
    OpsRecorded(r, a, doc, ops);
  }

  /** The inverse of a recorded group finds what it puts back, gives the deck
      back up to tombstones, with a past at least as good. */
  lemma {:induction false} GroupReturns(r: Rep, a: Past, doc: Doc, ops: seq<Op>)
    requires doc.slides == r.deck && NewOrBack(r.deck, a, ops) && UndoableAll(doc, ops) && ApplyAll(doc, ops).reply.Ok?
    requires Rel(r, a)
    ensures var o := ApplyAll(doc, ops);
            && Returns(r.deck, a, o.doc.slides, StepAll(r.deck, a, ops), o.reply.value)
            && Erase(After(o.doc.slides, o.reply.value)) == Erase(r.deck)
    decreases |ops|
  {
    hide Rel, New, Back, StepPast, Apply, RecordOp, Returns, Fits, Undoable, Erase, After, StepAll;
    DeckValid(r, a);
    if ops == [] {
      NoGroup(r, a);
    } else {
      OpIs(doc, ops[0]);
      OpRecorded(r, a, ops[0]);
      OpReturns(r, a, doc, ops[0]);
      var first := ApplyDoc(doc, ops[0]);
      var b := StepPast(r.deck, a, ops[0]);
      var (q, _) := RecordOp(r, ops[0]);
      GroupReturns(q, b, first.doc, ops[1..]);
      Step(doc, ops);
      DeckValid(q, b);
      var rest := ApplyAll(first.doc, ops[1..]);
      GroupSteps(r.deck, a, ops);
      ReturnsJoined(r.deck, a, q.deck, b, rest.doc.slides, StepAll(q.deck, b, ops[1..]), rest.reply.value, first.reply.value);
    }
  }

  lemma GroupSteps(deck: seq<Slide>, a: Past, ops: seq<Op>)
    requires ops != []
    ensures StepAll(deck, a, ops) == StepAll(Apply(deck, ops[0]).slides, StepPast(deck, a, ops[0]), ops[1..])
  {
  }

  lemma NoGroup(r: Rep, a: Past)
    ensures Returns(r.deck, a, r.deck, StepAll(r.deck, a, []), []) && After(r.deck, []) == r.deck
  {
  }

  /** First `more` back to the middle, then `inverse` back to the start. */
  lemma ReturnsJoined(deck: seq<Slide>, a: Past, mid: seq<Slide>, b: Past, now: seq<Slide>, c: Past, more: seq<Op>, inverse: seq<Op>)
    requires Returns(deck, a, mid, b, inverse) && Erase(After(mid, inverse)) == Erase(deck)
    requires Returns(mid, b, now, c, more) && Erase(After(now, more)) == Erase(mid) && Ready(mid)
    ensures Returns(deck, a, now, c, more + inverse) && Erase(After(now, more + inverse)) == Erase(deck)
  {
    hide Erase, After, StepAll, BackAll, Better;
    var m, p := After(now, more), StepAll(now, c, more);
    BackAllErased(mid, m, b, p, inverse, inverse);
    BackAllJoined(now, c, more, inverse);
    BetterTwice(a, StepAll(mid, b, inverse), StepAll(m, p, inverse));
  }

  // ---------------------------------------------------------------- nothing stale after a new group

  lemma SettledNew(r: Rep, a: Past, op: Op)
    requires Settled(r.deck, a) && New(r.deck, op) && Apply(r.deck, op).reply.Ok?
    requires Rel(r, a)
    ensures Settled(Apply(r.deck, op).slides, StepPast(r.deck, a, op))
  {
    hide Rel, Edit, Inserted, New, Bury, Relocate, Remove, Insert, InsertPast, DeletePast, EditPast;
    DeckValid(r, a);
    ReadyStays(r.deck);
    if Apply(r.deck, op).reply.value == [] {
      NoEffect(r, a, op);
    } else {
      match op
      case SetMaster(_, _) =>
      case InsertSlide(at, page) =>
        InsertSlideIs(r.deck, at, page);
        SettledInsert(r.deck, a, at, Inserted(r.deck, at, page));
      case DeleteSlide(slide) => SettledDelete(r.deck, a, SlidePos(r.deck, slide).value);
      case MoveSlide(slide, to) => SettledMove(r.deck, a, SlidePos(r.deck, slide).value, to);
      case _ =>
        OneSlideIs(r.deck, op);
        SettledEdit(r, a, SlidePos(r.deck, op.slide).value, op);
    }
  }

  lemma SettledInsert(deck: seq<Slide>, a: Past, at: nat, s: Slide)
    requires Settled(deck, a) && at <= |deck|
    ensures Settled(Insert(deck, at, s), InsertPast(a, s))
  {
  }

  lemma SettledDelete(deck: seq<Slide>, a: Past, i: nat)
    requires Settled(deck, a) && i < |deck| && |deck| > 1
    ensures Settled(Bury(Remove(deck, i), i, deck[i]), DeletePast(a, deck[i]))
  {
    var now := Bury(Remove(deck, i), i, deck[i]);
    forall s, x | s in now && x in s.ids.objects
      ensures (s.ids.slide, x) !in a.stale
    {
      var k :| 0 <= k < |now| && now[k] == s;
      var t := deck[if k < i then k else k + 1];
      assert t in deck && t.ids.objects == s.ids.objects && t.ids.slide == s.ids.slide;
    }
  }

  lemma SettledMove(deck: seq<Slide>, a: Past, i: nat, to: nat)
    requires Settled(deck, a) && i < |deck| && to < |deck|
    ensures Settled(Relocate(deck, i, to), a)
  {
    Identity.RelocatedSame(deck, i, to);
  }

  /** A new object has no old builds; a deleted one is not on the slide. */
  lemma SettledEdit(r: Rep, a: Past, i: nat, op: Op)
    requires OnOneSlide(op) && i < |r.deck| && ReadySlide(r.deck[i]) && SlidePos(r.deck, op.slide) == Some(i)
    requires Settled(r.deck, a) && New(r.deck, op) && Edit(r.deck[i], op).1.Ok? && Edit(r.deck[i], op).1.value != []
    requires Rel(r, a)
    ensures Settled(r.deck[i := Edit(r.deck[i], op).0], EditPast(a, r.deck[i], op))
  {
    hide Rel, Edit;
    DeckValid(r, a);
    var s := r.deck[i];
    var t := Edit(s, op).0;
    EditEffective(s, op);
    EditedIds(s, op);
    var now := r.deck[i := t];
    var b := EditPast(a, s, op);
    forall u, x | u in now && x in u.ids.objects
      ensures (u.ids.slide, x) !in b.stale
    {
      var k :| 0 <= k < |now| && now[k] == u;
      if k != i {
        assert u == r.deck[k] && u in r.deck;
        assert u.ids.slide != s.ids.slide by {
          OtherNode(r, a, i, k);
        }
      } else if op.InsertObject? && x == op.id {
        StaleOld(r, a, s.ids.slide, x);
      } else {
        assert s in r.deck && x in s.ids.objects;
      }
    }
  }

  lemma EditedIds(s: Slide, op: Op)
    requires Sound(s) && OnOneSlide(op) && Edit(s, op).1.Ok? && Edit(s, op).1.value != []
    ensures var t := Edit(s, op).0;
            && t.ids.slide == s.ids.slide
            && (forall x :: x in t.ids.objects ==> x in s.ids.objects || (op.InsertObject? && x == op.id))
            && (op.DeleteObject? ==> op.id !in t.ids.objects)
  {
    match op
    case InsertObject(_, at, id, _) => NoDupInsert(s.ids.objects, at, id);
    case DeleteObject(_, id) => NoDupRemove(s.ids.objects, IndexOf(s.ids.objects, id).value);
    case MoveObject(_, id, to) => MovedUnique(s.ids.objects, IndexOf(s.ids.objects, id).value, to);
    case _ =>
  }

  lemma StaleOld(r: Rep, a: Past, slide: nat, x: nat)
    requires Rel(r, a) && x !in Ids(r.deck)
    ensures (slide, x) !in a.stale
  {
    hide SlidesRel, PastRel, RootRel, WellFormed;
  }

  lemma {:induction false} SettledNewAll(r: Rep, a: Past, doc: Doc, ops: seq<Op>)
    requires doc.slides == r.deck && NewAll(r.deck, ops) && ApplyAll(doc, ops).reply.Ok? && Settled(r.deck, a)
    requires Rel(r, a)
    ensures Settled(ApplyAll(doc, ops).doc.slides, StepAll(r.deck, a, ops))
    decreases |ops|
  {
    hide Rel, New, Back, StepPast, Apply, RecordOp, Settled;
    if ops != [] {
      DeckValid(r, a);
      OpIs(doc, ops[0]);
      OpRecorded(r, a, ops[0]);
      SettledNew(r, a, ops[0]);
      var (q, _) := RecordOp(r, ops[0]);
      SettledNewAll(q, StepPast(r.deck, a, ops[0]), ApplyDoc(doc, ops[0]).doc, ops[1..]);
    }
  }
}
