/** The document after every recorded group of any run of edits, undos and
    redos: it shows exactly the deck. */
module ReplicaRuns {
  import opened Engine
  import opened Sequences
  import opened Ops
  import opened Numbering
  import opened OpLaws
  import opened GroupLaws
  import opened Inverses
  import opened GroupUndo
  import opened Timeline
  import opened Tree
  import opened Replicas
  import opened ReplicaRel
  import opened ReplicaOps
  import opened ReplicaEdits
  import opened ReplicaSteps
  import opened ReplicaShows
  import opened ReplicaLine

  /** An editor with its replica. */
  datatype Peer = Peer(session: Session, rep: Rep)

  /** An event, and the group it applied recorded. */
  function Mirrored(p: Peer, e: Event): Peer {
    var t := Do(p.session, e);
    match e
    case EditEvent(ops, _) =>
      var o := ApplyAll(p.session.doc, ops);
      Peer(t, if o.reply.Ok? && o.reply.value != [] then RecordGroup(p.rep, ops).0 else p.rep)
    case UndoEvent =>
      var steps := p.session.steps;
      Peer(t, if steps.undo != [] && Undo(steps, p.session.doc).done then RecordGroup(p.rep, Last(steps.undo)).0 else p.rep)
    case RedoEvent =>
      var steps := p.session.steps;
      Peer(t, if steps.redo != [] && Redo(steps, p.session.doc).done then RecordGroup(p.rep, Last(steps.redo)).0 else p.rep)
  }

  function MirroredRun(p: Peer, events: seq<Event>): Peer
    decreases |events|
  {
    if events == [] then p else MirroredRun(Mirrored(p, events[0]), events[1..])
  }

  /** An edit puts in only what is new, sets builds only on live objects, and
      if it fails leaves no tombstone behind. */
  ghost predicate Fair(s: Session, e: Event) {
    e.EditEvent? ==>
      && UndoableAll(s.doc, e.ops)
      && NewAll(s.doc.slides, e.ops)
      && (ApplyAll(s.doc, e.ops).reply.Err? ==> ApplyAll(s.doc, e.ops).doc == s.doc)
  }

  /** Editor and replica hold one deck; the document is in step with it, and
      has what every undo and redo step needs. */
  ghost predicate Followed(p: Peer, a: Past) {
    && Rel(p.rep, a)
    && p.rep.deck == p.session.doc.slides
    && Settled(p.rep.deck, a)
    && Stacked(p.rep.deck, a, p.session.steps.undo)
    && Stacked(p.rep.deck, a, p.session.steps.redo)
    && HasLine(p.session)
  }

  // ---------------------------------------------------------------- one event

  lemma {:induction false} EmptyGroup(doc: Doc, ops: seq<Op>)
    requires Ready(doc.slides) && ApplyAll(doc, ops).reply == Ok([])
    ensures ApplyAll(doc, ops).doc == doc
    decreases |ops|
  {
    if ops != [] {
      EmptyOp(doc, ops[0]);
      EmptyGroup(doc, ops[1..]);
    }
  }

  lemma EmptyOp(doc: Doc, op: Op)
    requires Ready(doc.slides) && ApplyDoc(doc, op).reply == Ok([])
    ensures ApplyDoc(doc, op).doc == doc
  {
    ReadyStays(doc.slides);
    if OnOneSlide(op) {
      OneSlideIs(doc.slides, op);
      var i := SlidePos(doc.slides, op.slide);
      assert i.Some? ==> doc.slides[i.value := doc.slides[i.value]] == doc.slides;
    }
  }

  /** What undid to `deck` once more stands on the steps below. */
  lemma StackedMore(deck: seq<Slide>, a: Past, now: seq<Slide>, b: Past, inv: seq<Op>, stack: seq<seq<Op>>)
    requires Returns(deck, a, now, b, inv) && Erase(After(now, inv)) == Erase(deck) && Ready(deck)
    requires Settled(deck, a) && Stacked(deck, a, stack)
    ensures Stacked(now, b, stack + [inv])
  {
    hide After, StepAll, BackAll, Better, Settled, Erase, Ready;
    var all := stack + [inv];
    assert Last(all) == inv && Init(all) == stack;
    SettledErased(deck, After(now, inv), a, StepAll(now, b, inv));
    StackedErased(deck, After(now, inv), a, StepAll(now, b, inv), stack, stack);
  }

  lemma SetTwice(now: seq<Slide>, b: Past, next: Op, prev: Op)
    requires Ready(now) && Coalesces(prev, next) && SlidePos(now, next.slide).Some?
    ensures var mid := Apply(now, next).slides;
            var c := StepPast(now, b, next);
            && Apply(mid, prev).slides == Apply(now, prev).slides
            && StepPast(mid, c, prev) == StepPast(now, b, prev)
            && (Back(mid, c, prev) ==> Back(now, b, prev))
  {
    var i := SlidePos(now, next.slide).value;
    OneSlideIs(now, next);
    OneSlideIs(now, prev);
    var t := now[i].(props := next.props);
    var mid := now[i := t];
    PosOf(now, i, t, prev);
    OneSlideIs(mid, prev);
    assert mid[i := t.(props := prev.props)] == now[i := now[i].(props := prev.props)];
    assert t.(props := prev.props) == now[i].(props := prev.props);
    DropTwice(b.stale, now[i].ids.slide);
  }

  lemma DropTwice(stale: set<(nat, nat)>, slide: nat)
    ensures DropStale(DropStale(stale, slide), slide) == DropStale(stale, slide)
  {
  }

  /** A typed key that joins the top step: that step's inverse still finds
      what it puts back. */
  lemma StackedJoined(deck: seq<Slide>, a: Past, now: seq<Slide>, b: Past, next: Op, stack: seq<seq<Op>>)
    requires Returns(deck, a, now, b, [next]) && Erase(After(now, [next])) == Erase(deck) && Ready(deck) && Ready(now)
    requires stack != [] && |Last(stack)| == 1 && Coalesces(Last(stack)[0], next) && SlidePos(now, next.slide).Some?
    requires Stacked(deck, a, stack)
    ensures Stacked(now, b, stack)
  {
    hide Apply, StepPast, Back, Better, Settled, Erase, Ready, Coalesces;
    var prev := Last(stack)[0];
    assert Last(stack) == [prev];
    var mid, c := Apply(now, next).slides, StepPast(now, b, next);
    OneAfter(now, b, next);
    StackedErased(deck, mid, a, c, stack, stack);
    SetTwice(now, b, next, prev);
    OneAfter(mid, c, prev);
    OneAfter(now, b, prev);
  }

  lemma OneAfter(deck: seq<Slide>, a: Past, op: Op)
    ensures After(deck, [op]) == Apply(deck, op).slides
    ensures StepAll(deck, a, [op]) == StepPast(deck, a, op)
    ensures BackAll(deck, a, [op]) <==> Back(deck, a, op)
  {
    hide Apply, StepPast, Back;
    var next := Apply(deck, op).slides;
    assert [op][1..] == [];
    assert After(next, []) == next && StepAll(next, StepPast(deck, a, op), []) == StepPast(deck, a, op);
    assert BackAll(next, StepPast(deck, a, op), []);
  }

  /** An inverse `SetSlide` names a slide that is there. */
  lemma InverseThere(doc: Doc, ops: seq<Op>, next: Op)
    requires Valid(doc.slides) && UndoableAll(doc, ops) && ApplyAll(doc, ops).reply == Ok([next]) && next.SetSlide?
    ensures SlidePos(ApplyAll(doc, ops).doc.slides, next.slide).Some?
  {
    GroupRestores(doc, ops);
    var o := ApplyAll(doc, ops);
    SetSlideOne(o.doc, next.slide, next.props);
  }

  lemma RepReady(p: Peer, a: Past)
    requires Followed(p, a)
    ensures Valid(p.session.doc.slides) && Ready(p.session.doc.slides)
  {
    DeckValid(p.rep, a);
  }

  lemma EditFollowed(p: Peer, a: Past, ops: seq<Op>, typed: bool) returns (b: Past)
    requires Followed(p, a) && Fair(p.session, EditEvent(ops, typed))
    requires var o := ApplyAll(p.session.doc, ops); o.reply.Ok? && o.reply.value != []
    ensures var q := Mirrored(p, EditEvent(ops, typed));
            && Rel(q.rep, b) && q.rep.deck == q.session.doc.slides && Settled(q.rep.deck, b)
            && Stacked(q.rep.deck, b, q.session.steps.undo) && Stacked(q.rep.deck, b, q.session.steps.redo)
  {
    hide Rel, Settled, Stacked, NewAll, UndoableAll, RecordGroup, Returns, NewOrBack, StepAll, After, Valid, Ready, Coalesces, Erase;
    var doc := p.session.doc;
    var o := ApplyAll(doc, ops);
    var deck := p.rep.deck;
    b := StepAll(deck, a, ops);
    RepReady(p, a);
    NewEither(deck, a, ops);
    GroupRecorded(p.rep, a, doc, ops);
    GroupReturns(p.rep, a, doc, ops);
    SettledNewAll(p.rep, a, doc, ops);
    var h := p.session.steps.(merge := typed);
    var q := Mirrored(p, EditEvent(ops, typed));
    DeckValid(q.rep, b);
    if Joins(h, o.reply.value) {
      var next := o.reply.value[0];
      assert o.reply.value == [next];
      NextSets(Last(h.undo)[0], next);
      InverseThere(doc, ops, next);
      StackedJoined(deck, a, o.doc.slides, b, next, h.undo);
    } else {
      StackedMore(deck, a, o.doc.slides, b, o.reply.value, h.undo);
    }
    NoSteps(o.doc.slides, b);
  }

  lemma NextSets(prev: Op, next: Op)
    requires Coalesces(prev, next)
    ensures next.SetSlide?
  {
  }

  lemma NoSteps(deck: seq<Slide>, a: Past)
    ensures Stacked(deck, a, [])
  {
  }

  /** A step of either stack, where it stands on the line, applies and can be undone. */
  lemma StepClean(at: Doc, ops: seq<Op>, to: Doc, doc: Doc)
    requires Link(at, ops, to) && Same(doc, at) && Valid(doc.slides)
    ensures ApplyAll(doc, ops).reply.Ok? && UndoableAll(doc, ops)
  {
    SameErased(at.slides, doc.slides);
    CleanIgnoresTombstones(at, doc, ops);
    CleanApplies(doc, ops);
  }

  /** Applying a stacked step moves it, as its inverse, to the other stack. */
  lemma StepFollowed(p: Peer, a: Past, ops: seq<Op>, from: seq<seq<Op>>, to: seq<seq<Op>>) returns (b: Past)
    requires from != [] && ops == Last(from)
    requires var doc := p.session.doc; ApplyAll(doc, ops).reply.Ok? && UndoableAll(doc, ops)
    requires Rel(p.rep, a) && p.rep.deck == p.session.doc.slides && Settled(p.rep.deck, a)
    requires Stacked(p.rep.deck, a, from) && Stacked(p.rep.deck, a, to)
    ensures var o := ApplyAll(p.session.doc, ops);
            var q := RecordGroup(p.rep, ops).0;
            && Rel(q, b) && q.deck == o.doc.slides && Settled(q.deck, b)
            && Stacked(q.deck, b, Init(from)) && Stacked(q.deck, b, to + [o.reply.value])
  {
    hide Rel, Settled, UndoableAll, RecordGroup, Returns, NewOrBack, StepAll, After, Valid, Ready, Erase, BackAll;
    var doc, deck := p.session.doc, p.rep.deck;
    var o := ApplyAll(doc, ops);
    b := StepAll(deck, a, ops);
    DeckValid(p.rep, a);
    BackEither(deck, a, ops);
    GroupRecorded(p.rep, a, doc, ops);
    GroupReturns(p.rep, a, doc, ops);
    AfterIs(doc, ops);
    StackedMore(deck, a, o.doc.slides, b, o.reply.value, to);
  }

  lemma UndoFollowed(p: Peer, a: Past) returns (b: Past)
    requires Followed(p, a) && p.session.steps.undo != []
    ensures var q := Mirrored(p, UndoEvent);
            && Rel(q.rep, b) && q.rep.deck == q.session.doc.slides && Settled(q.rep.deck, b)
            && Stacked(q.rep.deck, b, q.session.steps.undo) && Stacked(q.rep.deck, b, q.session.steps.redo)
  {
    hide Rel, Settled, Stacked, UndoableAll, RecordGroup, Valid, Link, Clean;
    var s := p.session;
    var line :| OnLine(line, s.steps, s.doc);
    var c := |s.steps.undo|;
    StepClean(line[c], s.steps.undo[c - 1], line[c - 1], s.doc);
    b := StepFollowed(p, a, Last(s.steps.undo), s.steps.undo, s.steps.redo);
  }

  lemma RedoFollowed(p: Peer, a: Past) returns (b: Past)
    requires Followed(p, a) && p.session.steps.redo != []
    ensures var q := Mirrored(p, RedoEvent);
            && Rel(q.rep, b) && q.rep.deck == q.session.doc.slides && Settled(q.rep.deck, b)
            && Stacked(q.rep.deck, b, q.session.steps.undo) && Stacked(q.rep.deck, b, q.session.steps.redo)
  {
    hide Rel, Settled, Stacked, UndoableAll, RecordGroup, Valid, Link, Clean;
    var s := p.session;
    var line :| OnLine(line, s.steps, s.doc);
    var c, k := |s.steps.undo|, |s.steps.redo| - 1;
    StepClean(line[c], s.steps.redo[k], line[c + 1], s.doc);
    b := StepFollowed(p, a, Last(s.steps.redo), s.steps.redo, s.steps.undo);
  }

  /** Every event keeps editor, replica and document in step. */
  lemma EventFollowed(p: Peer, a: Past, e: Event) returns (b: Past)
    requires Followed(p, a) && Fair(p.session, e)
    ensures Followed(Mirrored(p, e), b)
  {
    hide Rel, Settled, Stacked, UndoableAll, RecordGroup, OnLine, NewAll, Ready, Valid;
    var line :| OnLine(line, p.session.steps, p.session.doc);
    var after := EventOnLine(line, p.session, e);
    assert HasLine(Do(p.session, e));
    b := a;
    match e
    case EditEvent(ops, typed) =>
      var o := ApplyAll(p.session.doc, ops);
      if o.reply.Ok? && o.reply.value != [] {
        b := EditFollowed(p, a, ops, typed);
      } else if o.reply.Ok? {
        RepReady(p, a);
        EmptyGroup(p.session.doc, ops);
      }
    case UndoEvent =>
      if p.session.steps.undo != [] {
        b := UndoFollowed(p, a);
      }
    case RedoEvent =>
      if p.session.steps.redo != [] {
        b := RedoFollowed(p, a);
      }
  }

  lemma MirroredDoes(p: Peer, e: Event)
    ensures Mirrored(p, e).session == Do(p.session, e)
  {
    hide Do, RecordGroup, Undo, Redo, ApplyAll;
  }
}
