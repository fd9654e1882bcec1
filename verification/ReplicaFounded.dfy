/** No register lists a build of a node not yet made: documents started,
    recorded, merged and read all keep to that. */
module ReplicaFounded {
  import opened Engine
  import opened Sequences
  import opened Ops
  import opened Numbering
  import opened Timeline
  import opened Tree
  import opened Replicas
  import opened TreeLaws
  import opened RegisterLaws
  import opened ReplicaRel
  import opened ReplicaRuns
  import opened ReplicaAside
  import opened ReplicaRebuild
  import opened OpLaws
  import opened ReplicaShows
  import opened ReplicaDrift
  import opened Merging

  /** The ids' nodes are in the tree. */
  ghost predicate Known(d: Loro, nodes: Nodes) {
    forall x :: x in nodes ==> nodes[x] in d.kids
  }

  ghost predicate Grounded(r: Rep) {
    Founded(r.doc) && Known(r.doc, r.nodes)
  }

  /** `e` is founded, and has all nodes of `d`. */
  ghost predicate Grows(d: Loro, e: Loro) {
    Founded(e) && forall n :: n in d.kids ==> n in e.kids
  }

  lemma GrowsKnown(d: Loro, e: Loro, nodes: Nodes)
    requires Grows(d, e) && Known(d, nodes)
    ensures Known(e, nodes)
  {
  }

  // ---------------------------------------------------------------- registers and places

  /** A list of builds, if it is one, names only nodes of the tree. */
  ghost predicate Names(d: Loro, v: Option<Value>) {
    v.Some? && v.value.VBuilds? ==> forall k :: 0 <= k < |v.value.builds| ==> v.value.builds[k].node in d.kids
  }

  lemma PutFounded(d: Loro, n: TreeID, k: Key, v: Option<Value>)
    requires Founded(d) && (k == Builds ==> Names(d, v))
    ensures Founded(Put(d, n, k, v)) && Put(d, n, k, v).kids == d.kids
  {
    hide Put;
    var e := Put(d, n, k, v);
    forall m, j | 0 <= j < |ReadBuilds(e, m)|
      ensures ReadBuilds(e, m)[j].node in e.kids
    {
      if (m, Builds) != (n, k) {
        assert Get(e, m, Builds) == Get(d, m, Builds);
        assert ReadBuilds(e, m) == ReadBuilds(d, m);
      }
    }
  }

  lemma SetDeletedFounded(d: Loro, n: TreeID, deleted: bool)
    requires Founded(d)
    ensures Founded(SetDeleted(d, n, deleted)) && SetDeleted(d, n, deleted).kids == d.kids
  {
    hide Put, Founded;
    PutFounded(d, n, Deleted, Some(VBool(deleted)));
  }

  lemma {:induction false} PutKeysFounded(d: Loro, n: TreeID, values: Key -> Option<Value>, list: seq<Key>)
    requires Founded(d) && Names(d, values(Builds))
    ensures Founded(PutKeys(d, n, values, list)) && PutKeys(d, n, values, list).kids == d.kids
    decreases |list|
  {
    hide Put, Founded;
    if list != [] {
      PutFounded(d, n, list[0], values(list[0]));
      PutKeysFounded(Put(d, n, list[0], values(list[0])), n, values, list[1..]);
    }
  }

  lemma ObjectFounded(d: Loro, n: TreeID, o: SlideObject)
    requires Founded(d)
    ensures Founded(WriteObject(d, n, o)) && WriteObject(d, n, o).kids == d.kids
  {
    hide PutKeys, Founded;
    PutKeysFounded(d, n, k => ObjectReg(o, k), ObjectKeys(o));
  }

  lemma {:induction false} StoredKnown(d: Loro, nodes: Nodes, builds: seq<Build>)
    requires Known(d, nodes)
    ensures forall b :: b in Stored(nodes, builds) ==> b.node in d.kids
  {
    if builds != [] {
      StoredKnown(d, nodes, builds[1..]);
    }
  }

  lemma SlideFounded(d: Loro, nodes: Nodes, n: TreeID, s: Slide)
    requires Founded(d) && Known(d, nodes)
    ensures Founded(WriteSlide(d, nodes, n, s)) && WriteSlide(d, nodes, n, s).kids == d.kids
  {
    hide PutKeys, Founded, Stored;
    StoredKnown(d, nodes, s.props.builds);
    var values: Key -> Option<Value> := k => SlideReg(nodes, s, k);
    assert values(Builds) == Some(VBuilds(Stored(nodes, s.props.builds)));
    PutKeysFounded(d, n, values, SlideKeys(s));
  }

  lemma SameFounded(d: Loro, e: Loro)
    requires Founded(d) && e.regs == d.regs && forall n :: n in d.kids ==> n in e.kids
    ensures Grows(d, e)
  {
    forall m
      ensures ReadBuilds(e, m) == ReadBuilds(d, m)
    {
    }
  }

  lemma CreateFounded(d: Loro, p: TreeID, prev: Option<TreeID>, next: Option<TreeID>)
    requires Founded(d) && p in d.kids
    ensures var (e, n) := Create(d, p, prev, next); Grows(d, e) && n in e.kids
  {
    hide Founded, Grows;
    SameFounded(d, Create(d, p, prev, next).0);
  }

  lemma PlaceFounded(d: Loro, n: TreeID, p: TreeID, prev: Option<TreeID>, next: Option<TreeID>)
    requires Founded(d)
    ensures Grows(d, Place(d, n, p, prev, next))
  {
    hide Founded, Grows, Taken;
    SameFounded(d, Place(d, n, p, prev, next));
  }

  lemma GrowsTwice(d: Loro, e: Loro, f: Loro)
    requires Grows(d, e) && Grows(e, f)
    ensures Grows(d, f)
  {
  }

  lemma GrowsIn(d: Loro, e: Loro)
    requires Founded(e) && e.kids == d.kids
    ensures Grows(d, e)
  {
  }

  lemma {:induction false} OrderFromFounded(d: Loro, p: TreeID, order: seq<TreeID>, j: nat)
    requires Founded(d) && 0 < j <= |order|
    ensures Grows(d, OrderFrom(d, p, order, j))
    decreases |order| - j
  {
    hide Place, Grows, Founded;
    if j < |order| {
      var e := Place(d, order[j], p, Some(order[j - 1]), None);
      PlaceFounded(d, order[j], p, Some(order[j - 1]), None);
      GrowsFounded(d, e);
      OrderFromFounded(e, p, order, j + 1);
      GrowsTwice(d, e, OrderFrom(e, p, order, j + 1));
    } else {
      GrowsIn(d, d);
    }
  }

  lemma GrowsFounded(d: Loro, e: Loro)
    requires Grows(d, e)
    ensures Founded(e)
  {
  }

  lemma OrderFounded(d: Loro, p: TreeID, order: seq<TreeID>)
    requires Founded(d)
    ensures Grows(d, Order(d, p, order))
  {
    hide Place, OrderFrom, Pick, Grows, Founded;
    GrowsIn(d, d);
    var now := Pick(Children(d, p), set n | n in order);
    if now != order && order != [] {
      var next := if now != [] && now[0] != order[0] then Some(now[0]) else None;
      var e := Place(d, order[0], p, None, next);
      PlaceFounded(d, order[0], p, None, next);
      GrowsFounded(d, e);
      OrderFromFounded(e, p, order, 1);
      GrowsTwice(d, e, OrderFrom(e, p, order, 1));
    }
  }

  // ---------------------------------------------------------------- recording

  /** A recorded replica is as grounded as it was. */
  lemma HousedGrounded(r: Rep, id: nat, known: bool, p: TreeID, prev: Option<TreeID>, next: Option<TreeID>)
    requires Grounded(r)
    ensures Grounded(Housed(r, id, known, p, prev, next).0)
  {
    hide Place, SetDeleted, Create, Founded;
    if known && id in r.nodes {
      SetDeletedFounded(r.doc, r.nodes[id], false);
      PlaceFounded(SetDeleted(r.doc, r.nodes[id], false), r.nodes[id], p, prev, next);
    } else if p in r.doc.kids {
      CreateFounded(r.doc, p, prev, next);
    }
  }

  lemma WrittenGrounded(r: Rep, e: Loro)
    requires Grounded(r) && Grows(r.doc, e)
    ensures Grounded(r.(doc := e))
  {
  }

  lemma {:induction false} HouseGrounded(r: Rep, p: TreeID, objects: seq<SlideObject>, ids: seq<nat>)
    requires Grounded(r)
    ensures Grounded(HouseObjects(r, p, objects, ids).0)
    decreases |objects|
  {
    hide SetDeleted, Housed, WriteObject, Founded;
    if objects != [] && ids != [] {
      var known := ids[0] in r.nodes;
      var (q, n) :=
        if known then (r.(doc := SetDeleted(r.doc, r.nodes[ids[0]], false)), r.nodes[ids[0]])
        else Housed(r, ids[0], false, p, None, None);
      if known {
        SetDeletedFounded(r.doc, n, false);
      } else {
        HousedGrounded(r, ids[0], false, p, None, None);
      }
      ObjectFounded(q.doc, n, objects[0]);
      HouseGrounded(q.(doc := WriteObject(q.doc, n, objects[0])), p, objects[1..], ids[1..]);
    }
  }

  lemma InsertSlideGrounded(r: Rep, at: nat, page: Slide)
    requires Grounded(r)
    ensures Grounded(Write(r, InsertSlide(at, page)))
  {
    hide HouseObjects, Housed, Order, WriteSlide, Founded, Neighbours;
    if at < |r.deck| {
      var s := r.deck[at];
      var (prev, next) := Neighbours(r.nodes, SlideIdsOf(r.deck), at);
      var (q, n) := Housed(r, s.ids.slide, page.ids.slide != 0, ROOT, prev, next);
      HousedGrounded(r, s.ids.slide, page.ids.slide != 0, ROOT, prev, next);
      var (t, order) := HouseObjects(q, n, s.objects, s.ids.objects);
      HouseGrounded(q, n, s.objects, s.ids.objects);
      OrderFounded(t.doc, n, order);
      SlideFounded(Order(t.doc, n, order), t.nodes, n, s);
    }
  }

  lemma EditGrounded(r: Rep, op: Op, s: Slide, p: TreeID)
    requires op.SetSlide? || op.InsertObject? || op.MoveObject? || op.SetObject?
    requires Grounded(r)
    ensures Grounded(WriteOnSlide(r, op, s, p))
  {
    hide Housed, WriteObject, WriteSlide, Place, Neighbours, Founded;
    match op
    case SetSlide(_, _) => SlideFounded(r.doc, r.nodes, p, s);
    case InsertObject(_, at, id, _) =>
      var (prev, next) := Neighbours(r.nodes, s.ids.objects, at);
      HousedGrounded(r, id, true, p, prev, next);
      var (q, n) := Housed(r, id, true, p, prev, next);
      if at < |s.objects| {
        ObjectFounded(q.doc, n, s.objects[at]);
      }
    case MoveObject(_, id, to) =>
      var (prev, next) := Neighbours(r.nodes, s.ids.objects, to);
      if id in r.nodes {
        PlaceFounded(r.doc, r.nodes[id], p, prev, next);
      }
    case SetObject(_, id, _) =>
      var at := IndexOf(s.ids.objects, id);
      if id in r.nodes && at.Some? && at.value < |s.objects| {
        ObjectFounded(r.doc, r.nodes[id], s.objects[at.value]);
      }
  }

  lemma WriteGrounded(r: Rep, op: Op)
    requires Grounded(r)
    ensures Grounded(Write(r, op))
  {
    hide WriteOnSlide, SetDeleted, Place, Neighbours, Founded;
    match op
    case InsertSlide(at, page) => InsertSlideGrounded(r, at, page);
    case DeleteSlide(slide) =>
      if slide in r.nodes {
        SetDeletedFounded(r.doc, r.nodes[slide], true);
      }
    case DeleteObject(_, id) =>
      if id in r.nodes {
        SetDeletedFounded(r.doc, r.nodes[id], true);
      }
    case MoveSlide(slide, to) =>
      var (prev, next) := Neighbours(r.nodes, SlideIdsOf(r.deck), to);
      if slide in r.nodes {
        PlaceFounded(r.doc, r.nodes[slide], ROOT, prev, next);
      }
    case SetMaster(_, _) =>
    case _ =>
      var i := SlidePos(r.deck, op.slide);
      if i.Some? && op.slide in r.nodes {
        EditGrounded(r, op, r.deck[i.value], r.nodes[op.slide]);
      }
  }

  lemma {:induction false} OpsGrounded(r: Rep, ops: seq<Op>)
    requires Grounded(r)
    ensures Grounded(RecordOps(r, ops).0)
    decreases |ops|
  {
    hide Write, Ops.Apply, Founded;
    if ops != [] {
      var o := Apply(r.deck, ops[0]);
      var q := r.(deck := o.slides);
      WriteGrounded(q, ops[0]);
      if RecordOp(r, ops[0]).1 {
        OpsGrounded(RecordOp(r, ops[0]).0, ops[1..]);
      }
    }
  }

  lemma {:induction false} ReviveFounded(d: Loro, nodes: Nodes, deck: seq<Slide>)
    requires Founded(d)
    ensures Founded(ReviveShown(d, nodes, deck)) && ReviveShown(d, nodes, deck).kids == d.kids
    decreases |deck|
  {
    hide SetDeleted, Founded;
    if deck != [] {
      var id := deck[0].ids.slide;
      if id in nodes {
        SetDeletedFounded(d, nodes[id], false);
        ReviveFounded(SetDeleted(d, nodes[id], false), nodes, deck[1..]);
      } else {
        ReviveFounded(d, nodes, deck[1..]);
      }
    }
  }

  lemma GroupGrounded(r: Rep, ops: seq<Op>)
    requires Grounded(r)
    ensures Grounded(RecordGroup(r, ops).0)
  {
    hide RecordOps, ReviveShown, Founded;
    ReviveFounded(r.doc, r.nodes, r.deck);
    OpsGrounded(r.(doc := ReviveShown(r.doc, r.nodes, r.deck)), ops);
  }

  /** Whatever is done, undone and redone, and recorded, a grounded replica
      stays one. */
  lemma {:induction false} RunGrounded(p: Peer, events: seq<Event>)
    requires Grounded(p.rep)
    ensures Grounded(MirroredRun(p, events).rep)
    decreases |events|
  {
    hide RecordGroup, Grounded, Do, ApplyAll;
    if events != [] {
      match events[0] {
        case EditEvent(ops, _) => GroupGrounded(p.rep, ops);
        case UndoEvent =>
          if p.session.steps.undo != [] {
            GroupGrounded(p.rep, Last(p.session.steps.undo));
          }
        case RedoEvent =>
          if p.session.steps.redo != [] {
            GroupGrounded(p.rep, Last(p.session.steps.redo));
          }
      }
      RunGrounded(Mirrored(p, events[0]), events[1..]);
    }
  }

  // ---------------------------------------------------------------- starting, merging, reading

  lemma {:induction false} ObjectsGrounded(d: Loro, nodes: Nodes, p: TreeID, objects: seq<SlideObject>, ids: seq<nat>)
    requires Founded(d) && Known(d, nodes)
    ensures var (e, more) := PutObjects(d, nodes, p, objects, ids); Founded(e) && Known(e, more)
    decreases |objects|
  {
    hide Create, WriteObject, Founded;
    if objects != [] && ids != [] && p in d.kids {
      var (f, n) := Create(d, p, None, None);
      CreateFounded(d, p, None, None);
      ObjectFounded(f, n, objects[0]);
      ObjectsGrounded(WriteObject(f, n, objects[0]), nodes[ids[0] := n], p, objects[1..], ids[1..]);
    }
  }

  lemma {:induction false} StartedGrounded(d: Loro, nodes: Nodes, slides: seq<Slide>)
    requires Founded(d) && Known(d, nodes)
    ensures var (e, more) := Started(d, nodes, slides); Founded(e) && Known(e, more)
    decreases |slides|
  {
    hide Create, WriteSlide, PutObjects, Founded;
    if slides != [] && ROOT in d.kids {
      var s := slides[0];
      var (f, n) := Create(d, ROOT, None, None);
      CreateFounded(d, ROOT, None, None);
      ObjectsGrounded(f, nodes[s.ids.slide := n], n, s.objects, s.ids.objects);
      var (e, more) := PutObjects(f, nodes[s.ids.slide := n], n, s.objects, s.ids.objects);
      SlideFounded(e, more, n, s);
      StartedGrounded(WriteSlide(e, more, n, s), more, slides[1..]);
    }
  }

  /** A shared document starts so, */
  lemma StartGrounded(peer: nat, slides: seq<Slide>)
    ensures Grounded(Start(peer, slides))
  {
    hide Started;
    StartedGrounded(Blank(peer), map[], EnsureIds(slides));
  }

  /** merging two such, whatever tree the merge makes of their nodes, gives another, */
  lemma MergedFounded(d: Loro, e: Loro, shape: TreeShape)
    requires Founded(d) && Founded(e) && forall n :: n in d.kids || n in e.kids ==> n in shape.kids
    ensures Founded(Merged(d, e, shape))
  {
    var m := Merged(d, e, shape);
    forall n, k | 0 <= k < |ReadBuilds(m, n)|
      ensures ReadBuilds(m, n)[k].node in m.kids
    {
      assert ReadBuilds(m, n) == ReadBuilds(d, n) || ReadBuilds(m, n) == ReadBuilds(e, n);
    }
  }

  /** and a replica that reads one is grounded again. */
  lemma ReadGrounded(d: Loro)
    requires WellFormed(d) && Founded(d) && Children(d, ROOT) != []
    ensures Grounded(RebuiltRep(d))
  {
    hide Founded, WellFormed, LeftOver, Settled, Woken, Swept, Unread, Aside, RebuiltRep, Rebuilt;
    RebuiltRel(d);
    RebuiltOf(d);
    WokenReads(Swept(d, Unread(d)), ROOT);
    RelKnown(RebuiltRep(d).(doc := Cleared(d)), LeftOver(RebuiltRep(d).(doc := Cleared(d))));
  }

  lemma RelKnown(r: Rep, a: Past)
    requires Rel(r, a)
    ensures Known(r.doc, r.nodes)
  {
    hide WellFormed, RootRel, SlidesRel, PastRel, KnownIds;
  }

  /** Two peers record what they like, here and there; their documents are
      merged, whatever tree comes of it, and read. Any run recorded from there
      leaves a document that shows exactly the deck. */
  lemma MergedRunShows(p: Peer, q: Peer, here: seq<Event>, there: seq<Event>, shape: TreeShape, masters: seq<Master>, events: seq<Event>)
    requires Grounded(p.rep) && Grounded(q.rep)
    requires var a, b := MirroredRun(p, here).rep.doc, MirroredRun(q, there).rep.doc; var d := Merged(a, b, shape);
             && (forall n :: n in a.kids || n in b.kids ==> n in shape.kids)
             && WellFormed(d) && Children(d, ROOT) != []
             && FairRun(Session(NO_STEPS, Doc(Rebuilt(d), masters)), Rebuilt(d), events)
    ensures var d := Merged(MirroredRun(p, here).rep.doc, MirroredRun(q, there).rep.doc, shape);
            var end := MirroredRun(Peer(Session(NO_STEPS, Doc(Rebuilt(d), masters)), RebuiltRep(d)), events);
            Erase(end.rep.deck) == Erase(end.session.doc.slides) && SameDeck(Rebuilt(end.rep.doc), end.session.doc.slides)
  {
    hide FairRun, SameDeck, Rebuilt, MirroredRun, WellFormed, Founded, Merged, RebuiltRep;
    var a, b := MirroredRun(p, here).rep.doc, MirroredRun(q, there).rep.doc;
    RunGrounded(p, here);
    RunGrounded(q, there);
    MergedFounded(a, b, shape);
    RebuiltRunShows(Merged(a, b, shape), masters, events);
  }
}
