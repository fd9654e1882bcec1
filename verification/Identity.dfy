/** No id is ever reused: the ids a deck has had only grow, and what is
    minted lies above them all. */
module Identity {
  import opened Engine
  import opened Sequences
  import opened Ops
  import opened Numbering
  import opened OpLaws
  import opened GroupLaws
  import opened Inverses
  import opened Timeline

  function IdSet(s: Slide): set<nat> {
    set x | x in SlideIdList(s)
  }

  /** The ids an op brings. */
  function Brought(op: Op): set<nat> {
    if op.InsertSlide? then IdSet(op.page) else if op.InsertObject? then {op.id} else {}
  }

  lemma IdsAt(slides: seq<Slide>, i: nat)
    requires i < |slides|
    ensures IdSet(slides[i]) <= Ids(slides)
  {
  }

  lemma IdsUpdated(slides: seq<Slide>, i: nat, t: Slide)
    requires i < |slides|
    ensures IdSet(slides[i]) <= IdSet(t) ==> Ids(slides) <= Ids(slides[i := t])
    ensures Ids(slides[i := t]) <= Ids(slides) + IdSet(t)
  {
    var after := slides[i := t];
    forall x | x in Ids(slides) && IdSet(slides[i]) <= IdSet(t)
      ensures x in Ids(after)
    {
      var j :| 0 <= j < |slides| && x in SlideIdList(slides[j]);
      if j == i {
        assert x in IdSet(slides[i]) && after[i] == t;
      } else {
        assert after[j] == slides[j];
      }
    }
    forall x | x in Ids(after)
      ensures x in Ids(slides) + IdSet(t)
    {
      var j :| 0 <= j < |after| && x in SlideIdList(after[j]);
      if j != i {
        assert after[j] == slides[j];
      }
    }
  }

  lemma IdsRemoved(slides: seq<Slide>, at: nat)
    requires at < |slides|
    ensures Ids(slides) == Ids(Remove(slides, at)) + IdSet(slides[at])
  {
    InsertedIds(Remove(slides, at), at, slides[at]);
    InsertRemove(slides, at);
  }

  lemma IdsBuried(slides: seq<Slide>, at: nat, s: Slide)
    requires 0 < |slides| && at <= |slides|
    ensures Ids(Bury(slides, at, s)) == Ids(slides) + IdSet(s)
  {
    var n := if at < |slides| then at else |slides| - 1;
    var t := Bury(slides, at, s)[n];
    assert IdSet(t) == IdSet(slides[n]) + IdSet(s);
    IdsUpdated(slides, n, t);
    IdsAt(slides, n);
    IdsAt(slides[n := t], n);
  }

  lemma IdsEdited(s: Slide, op: Op)
    requires ReadySlide(s) && OnOneSlide(op)
    ensures IdSet(s) <= IdSet(Edit(s, op).0) <= IdSet(s) + Brought(op)
  {
    match op
    case InsertObject(_, at, id, _) =>
      if at <= |s.objects| && id !in s.ids.objects {
        var t := Edit(s, op).0;
        assert forall x :: x in s.ids.objects ==> x in s.ids.objects[..at] || x in s.ids.objects[at..];
        assert forall x :: x in t.ids.objects <==> x in s.ids.objects || x == id;
      }
    case DeleteObject(_, id) =>
      var at := IndexOf(s.ids.objects, id);
      if at.Some? {
        var o := s.ids.objects;
        assert o == o[..at.value] + [id] + o[at.value + 1..];
        assert forall x :: x in o <==> x in Remove(o, at.value) || x == id;
      }
    case MoveObject(_, id, to) =>
      var from := IndexOf(s.ids.objects, id);
      if from.Some? && to < |s.objects| {
        RelocatedSame(s.ids.objects, from.value, to);
      }
    case _ =>
  }

  lemma RelocatedSame<T>(s: seq<T>, from: nat, to: nat)
    requires from < |s| && to < |s|
    ensures forall x :: x in Relocate(s, from, to) <==> x in s
  {
    var r := Remove(s, from);
    assert s == s[..from] + [s[from]] + s[from + 1..];
    assert r == r[..to] + r[to..];
    forall x
      ensures x in Relocate(s, from, to) <==> x in s
    {
      assert x in r <==> x in s[..from] || x in s[from + 1..];
      assert x in r <==> x in r[..to] || x in r[to..];
    }
  }

  lemma IdsRelocated(slides: seq<Slide>, from: nat, to: nat)
    requires from < |slides| && to < |slides|
    ensures Ids(Relocate(slides, from, to)) == Ids(slides)
  {
    IdsRemoved(slides, from);
    InsertedIds(Remove(slides, from), to, slides[from]);
  }

  /** An op never loses an id: what is deleted is tombstoned. What it adds it
      brought, or minted above every id there was. */
  lemma IdsGrow(slides: seq<Slide>, op: Op)
    requires Ready(slides)
    ensures Ids(slides) <= Ids(Apply(slides, op).slides)
    ensures forall x :: x in Ids(Apply(slides, op).slides) ==> x in Ids(slides) || x in Brought(op) || x > MaxId(slides)
  {
    ReadyStays(slides);
    match op
    case SetMaster(_, _) =>
    case InsertSlide(at, page) =>
      if at <= |slides| && (page.ids.slide == 0 || SlidePos(slides, page.ids.slide).None?) {
        InsertSlideIs(slides, at, page);
        var s := Inserted(slides, at, page);
        InsertedIds(slides, at, s);
        MintedAbove(slides, at, page);
      }
    case DeleteSlide(slide) =>
      var i := SlidePos(slides, slide);
      if i.Some? && |slides| > 1 {
        IdsRemoved(slides, i.value);
        IdsBuried(Remove(slides, i.value), i.value, slides[i.value]);
      }
    case MoveSlide(slide, to) =>
      var i := SlidePos(slides, slide);
      if i.Some? && to < |slides| {
        IdsRelocated(slides, i.value, to);
      }
    case _ =>
      OneSlideIs(slides, op);
      var i := SlidePos(slides, op.slide);
      if i.Some? {
        IdsEdited(slides[i.value], op);
        IdsUpdated(slides, i.value, Edit(slides[i.value], op).0);
        IdsAt(slides, i.value);
      }
  }

  /** Every id a new slide lacks is minted above all the deck's ids. */
  lemma MintedAbove(slides: seq<Slide>, at: nat, page: Slide)
    requires at <= |slides|
    ensures forall x :: x in IdSet(Inserted(slides, at, page)) ==> x in IdSet(page) || x > MaxId(slides)
  {
    var s := Numbered(slides, page);
    var t := Inserted(slides, at, page);
    var next := NextId(Insert(slides, at, s));
    InsertedTop(slides, at, s);
    var kept := KeptIds(s);
    forall k | 0 <= k < |t.ids.objects|
      ensures t.ids.objects[k] in page.ids.objects || t.ids.objects[k] > MaxId(slides)
    {
      if k < |kept| {
        assert t.ids.objects[k] == page.ids.objects[k];
      }
    }
  }

  lemma MaxIdGrows(a: seq<Slide>, b: seq<Slide>)
    requires Ids(a) <= Ids(b)
    ensures MaxId(a) <= MaxId(b)
  {
    MaxIdBounds(a);
    MaxIdBounds(b);
  }

  lemma DocIdsGrow(doc: Doc, op: Op)
    requires Ready(doc.slides)
    ensures Ids(doc.slides) <= Ids(ApplyDoc(doc, op).doc.slides) && Ready(ApplyDoc(doc, op).doc.slides)
  {
    if !op.SetMaster? {
      IdsGrow(doc.slides, op);
      ReadyAfter(doc.slides, op);
    }
  }

  /** Nor does a group, applied or rolled back. */
  lemma {:induction false} GroupIdsGrow(doc: Doc, ops: seq<Op>)
    requires Ready(doc.slides)
    ensures Ids(doc.slides) <= Ids(ApplyAll(doc, ops).doc.slides) && Ready(ApplyAll(doc, ops).doc.slides)
    decreases !Short(ops), |ops|
  {
    if ops != [] {
      DocIdsGrow(doc, ops[0]);
      var first := ApplyDoc(doc, ops[0]);
      if first.reply.Ok? {
        GroupIdsGrow(first.doc, ops[1..]);
        var rest := ApplyAll(first.doc, ops[1..]);
        if rest.reply.Err? {
          GroupIdsGrow(rest.doc, first.reply.value);
        }
      }
    }
  }

  /** Over any run of edits, undos and redos, whatever fails on the way, the
      ids the deck has had only grow. */
  lemma {:induction false} RunIdsGrow(s: Session, events: seq<Event>)
    requires Ready(s.doc.slides)
    ensures Ids(s.doc.slides) <= Ids(Run(s, events).doc.slides) && Ready(Run(s, events).doc.slides)
    decreases |events|
  {
    if events != [] {
      match events[0] {
        case EditEvent(ops, _) => GroupIdsGrow(s.doc, ops);
        case UndoEvent =>
          if s.steps.undo != [] {
            GroupIdsGrow(s.doc, Last(s.steps.undo));
          }
        case RedoEvent =>
          if s.steps.redo != [] {
            GroupIdsGrow(s.doc, Last(s.steps.redo));
          }
      }
      RunIdsGrow(Do(s, events[0]), events[1..]);
    }
  }

  /** A slide without ids put in after any run gets ids that nothing ever had:
      not a live, deleted or undone slide or object at any earlier time. */
  lemma NeverReused(s: Session, events: seq<Event>, at: nat, page: Slide)
    requires Ready(s.doc.slides) && page.ids == SlideIds(0, [], [])
    requires at <= |Run(s, events).doc.slides|
    ensures var t := Inserted(Run(s, events).doc.slides, at, page);
            forall x :: x == t.ids.slide || x in t.ids.objects ==> x !in Ids(s.doc.slides) && x > MaxId(s.doc.slides)
  {
    var now := Run(s, events).doc.slides;
    RunIdsGrow(s, events);
    MaxIdGrows(s.doc.slides, now);
    MaxIdBounds(s.doc.slides);
    var t := Inserted(now, at, page);
    InsertedTop(now, at, Numbered(now, page));
    assert forall k :: 0 <= k < |t.ids.objects| ==> t.ids.objects[k] > MaxId(now);
  }

  /** So does an object added under the id the editor takes for it. */
  lemma NextIdNeverReused(s: Session, events: seq<Event>)
    requires Ready(s.doc.slides)
    ensures NextId(Run(s, events).doc.slides) !in Ids(s.doc.slides)
  {
    RunIdsGrow(s, events);
    MaxIdGrows(s.doc.slides, Run(s, events).doc.slides);
    MaxIdBounds(s.doc.slides);
  }
}
