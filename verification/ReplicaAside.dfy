/** Nodes no id names: whether they are live or deleted makes no difference to
    what is recorded, and none to what is shown if they make no object. */
module ReplicaAside {
  import opened Engine
  import opened Sequences
  import opened Ops
  import opened Numbering
  import opened Timeline
  import opened Tree
  import opened Replicas
  import opened TreeLaws
  import opened ReplicaRel
  import opened ReplicaRuns

  const DEAD := Reg(Some(VBool(true)), 0, 0)

  function Marks(gone: set<TreeID>): (r: map<(TreeID, Key), Reg>)
    ensures forall k :: k in r <==> k.0 in gone && k.1 == Deleted
    ensures forall k :: k in r ==> r[k] == DEAD
  {
    map n | n in gone :: (n, Deleted) := DEAD
  }

  /** The document with the nodes of `gone` deleted. */
  function Swept(d: Loro, gone: set<TreeID>): (e: Loro)
    ensures forall n, k :: k != Deleted || n !in gone ==> Get(e, n, k) == Get(d, n, k)
    ensures forall n :: n in gone ==> IsDeleted(e, n)
    ensures e.kids == d.kids && e.parent == d.parent
  {
    d.(regs := d.regs + Marks(gone))
  }

  function SweptRep(r: Rep, gone: set<TreeID>): Rep {
    r.(doc := Swept(r.doc, gone))
  }

  /** The nodes of `gone` make no object, are no slides and have been made. */
  ghost predicate Idle(d: Loro, gone: set<TreeID>) {
    && ROOT !in gone
    && (forall n :: n in gone ==> ReadObject(d, n).None? && n !in Children(d, ROOT))
    && (forall n :: n in gone && n.peer == d.peer ==> n.count < d.next)
  }

  /** And no id is theirs. */
  ghost predicate Aside(r: Rep, gone: set<TreeID>) {
    Idle(r.doc, gone) && forall x :: x in r.nodes ==> r.nodes[x] !in gone
  }

  // ---------------------------------------------------------------- registers

  lemma PutIdle(d: Loro, n: TreeID, k: Key, v: Option<Value>, gone: set<TreeID>)
    requires Idle(d, gone) && n !in gone
    ensures Idle(Put(d, n, k, v), gone)
  {
    hide ReadObject, Put;
    var e := Put(d, n, k, v);
    forall m | m in gone
      ensures ReadObject(e, m).None?
    {
      assert RegsSame(d, e, m);
      SameObject(d, e, m);
    }
  }

  lemma PutAside(d: Loro, n: TreeID, k: Key, v: Option<Value>, gone: set<TreeID>)
    requires Idle(d, gone) && n !in gone
    ensures Put(Swept(d, gone), n, k, v) == Swept(Put(d, n, k, v), gone) && Idle(Put(d, n, k, v), gone)
  {
    hide Put, Swept, Idle;
    PutIdle(d, n, k, v, gone);
    SweptPut(d, n, k, v, gone);
  }

  lemma SweptPut(d: Loro, n: TreeID, k: Key, v: Option<Value>, gone: set<TreeID>)
    requires n !in gone
    ensures Put(Swept(d, gone), n, k, v) == Swept(Put(d, n, k, v), gone)
  {
    assert Put(Swept(d, gone), n, k, v).regs == Swept(Put(d, n, k, v), gone).regs;
  }

  lemma SetDeletedAside(d: Loro, n: TreeID, deleted: bool, gone: set<TreeID>)
    requires Idle(d, gone) && n !in gone
    ensures SetDeleted(Swept(d, gone), n, deleted) == Swept(SetDeleted(d, n, deleted), gone) && Idle(SetDeleted(d, n, deleted), gone)
  {
    hide Put, Swept, Idle;
    PutAside(d, n, Deleted, Some(VBool(deleted)), gone);
  }

  lemma {:induction false} PutKeysAside(d: Loro, n: TreeID, values: Key -> Option<Value>, list: seq<Key>, gone: set<TreeID>)
    requires Idle(d, gone) && n !in gone
    ensures PutKeys(Swept(d, gone), n, values, list) == Swept(PutKeys(d, n, values, list), gone)
    ensures Idle(PutKeys(d, n, values, list), gone)
    decreases |list|
  {
    hide Put, Swept, Idle;
    if list != [] {
      PutAside(d, n, list[0], values(list[0]), gone);
      PutKeysAside(Put(d, n, list[0], values(list[0])), n, values, list[1..], gone);
    }
  }

  lemma ObjectAside(d: Loro, n: TreeID, o: SlideObject, gone: set<TreeID>)
    requires Idle(d, gone) && n !in gone
    ensures WriteObject(Swept(d, gone), n, o) == Swept(WriteObject(d, n, o), gone) && Idle(WriteObject(d, n, o), gone)
  {
    hide PutKeys, Swept, Idle;
    PutKeysAside(d, n, k => ObjectReg(o, k), ObjectKeys(o), gone);
  }

  lemma SlideAside(d: Loro, nodes: Nodes, n: TreeID, s: Slide, gone: set<TreeID>)
    requires Idle(d, gone) && n !in gone
    ensures WriteSlide(Swept(d, gone), nodes, n, s) == Swept(WriteSlide(d, nodes, n, s), gone) && Idle(WriteSlide(d, nodes, n, s), gone)
  {
    hide PutKeys, Swept, Idle;
    PutKeysAside(d, n, k => SlideReg(nodes, s, k), SlideKeys(s), gone);
  }

  // ---------------------------------------------------------------- places

  lemma SameRegs(d: Loro, e: Loro, gone: set<TreeID>)
    requires Idle(d, gone) && e.regs == d.regs && e.peer == d.peer && d.next <= e.next
    requires forall n :: n in Children(e, ROOT) ==> n in Children(d, ROOT) || n !in gone
    ensures Idle(e, gone)
  {
    hide ReadObject;
    forall n | n in gone
      ensures ReadObject(e, n).None?
    {
      assert RegsSame(d, e, n);
      SameObject(d, e, n);
    }
  }

  lemma CreateAtAside(d: Loro, p: TreeID, index: nat, gone: set<TreeID>)
    requires Idle(d, gone) && p in d.kids && index <= |d.kids[p]|
    ensures var (e, n) := CreateAt(d, p, index);
            CreateAt(Swept(d, gone), p, index) == (Swept(e, gone), n) && n !in gone && Idle(e, gone)
  {
    hide ReadObject;
    var (e, n) := CreateAt(d, p, index);
    assert n !in gone;
    SameRegs(d, e, gone);
  }

  lemma CreateAside(d: Loro, p: TreeID, prev: Option<TreeID>, next: Option<TreeID>, gone: set<TreeID>)
    requires Idle(d, gone) && p in d.kids
    ensures var (e, n) := Create(d, p, prev, next);
            Create(Swept(d, gone), p, prev, next) == (Swept(e, gone), n) && n !in gone && Idle(e, gone)
  {
    hide CreateAt, Idle;
    var kids := d.kids[p];
    var index :=
      if prev.Some? then (var at := Position(kids, prev.value); if at.Some? then at.value + 1 else |kids|)
      else if next.Some? then (var at := Position(kids, next.value); if at.Some? then at.value else 0)
      else |kids|;
    CreateAtAside(d, p, index, gone);
  }

  lemma TakenFewer(s: seq<TreeID>, n: TreeID)
    ensures forall m :: m in Taken(s, n) ==> m in s
  {
  }

  lemma MoveAside(d: Loro, n: TreeID, p: TreeID, index: nat, gone: set<TreeID>)
    requires Idle(d, gone) && n !in gone && n in d.parent && d.parent[n] in d.kids && p in d.kids
    requires index <= |Children(TakenOut(d, n), p)|
    ensures MoveTo(Swept(d, gone), n, p, index) == Swept(MoveTo(d, n, p, index), gone) && Idle(MoveTo(d, n, p, index), gone)
  {
    hide Taken;
    var e := MoveTo(d, n, p, index);
    TakenFewer(d.kids[d.parent[n]], n);
    forall m | m in Children(e, ROOT)
      ensures m in Children(d, ROOT) || m !in gone
    {
    }
    SameRegs(d, e, gone);
  }

  lemma PlaceAside(d: Loro, n: TreeID, p: TreeID, prev: Option<TreeID>, next: Option<TreeID>, gone: set<TreeID>)
    requires Idle(d, gone) && n !in gone
    ensures Place(Swept(d, gone), n, p, prev, next) == Swept(Place(d, n, p, prev, next), gone) && Idle(Place(d, n, p, prev, next), gone)
  {
    hide MoveTo, Idle, Taken;
    if InTree(d, n) && p in d.kids && InTreeOpt(d, prev) && InTreeOpt(d, next) {
      var out := TakenOut(d, n);
      if prev.Some? {
        var at := Position(Children(out, d.parent[prev.value]), prev.value);
        MoveAside(d, n, d.parent[prev.value], if at.Some? then at.value + 1 else 0, gone);
      } else if next.Some? {
        var at := Position(Children(out, d.parent[next.value]), next.value);
        MoveAside(d, n, d.parent[next.value], if at.Some? then at.value else 0, gone);
      } else if d.parent[n] != p {
        MoveAside(d, n, p, |Children(out, p)|, gone);
      }
    }
  }

  ghost predicate Apart(order: seq<TreeID>, gone: set<TreeID>) {
    forall n :: n in order ==> n !in gone
  }

  lemma {:induction false} OrderFromAside(d: Loro, p: TreeID, order: seq<TreeID>, j: nat, gone: set<TreeID>)
    requires Idle(d, gone) && Apart(order, gone) && 0 < j <= |order|
    ensures OrderFrom(Swept(d, gone), p, order, j) == Swept(OrderFrom(d, p, order, j), gone) && Idle(OrderFrom(d, p, order, j), gone)
    decreases |order| - j
  {
    hide Place, Swept, Idle;
    if j < |order| {
      PlaceAside(d, order[j], p, Some(order[j - 1]), None, gone);
      OrderFromAside(Place(d, order[j], p, Some(order[j - 1]), None), p, order, j + 1, gone);
    }
  }

  lemma OrderAside(d: Loro, p: TreeID, order: seq<TreeID>, gone: set<TreeID>)
    requires Idle(d, gone) && Apart(order, gone)
    ensures Order(Swept(d, gone), p, order) == Swept(Order(d, p, order), gone) && Idle(Order(d, p, order), gone)
  {
    hide Place, OrderFrom, Idle, Pick;
    var now := Pick(Children(d, p), set n | n in order);
    if now != order && order != [] {
      var next := if now != [] && now[0] != order[0] then Some(now[0]) else None;
      PlaceAside(d, order[0], p, None, next, gone);
      OrderFromAside(Place(d, order[0], p, None, next), p, order, 1, gone);
    }
  }

  // ---------------------------------------------------------------- one op

  lemma HousedAside(r: Rep, id: nat, known: bool, p: TreeID, prev: Option<TreeID>, next: Option<TreeID>, gone: set<TreeID>)
    requires Aside(r, gone) && p !in gone
    ensures var (q, n) := Housed(r, id, known, p, prev, next);
            Housed(SweptRep(r, gone), id, known, p, prev, next) == (SweptRep(q, gone), n) && n !in gone && Aside(q, gone)
  {
    hide Place, SetDeleted, Create, Idle;
    if known && id in r.nodes {
      SetDeletedAside(r.doc, r.nodes[id], false, gone);
      PlaceAside(SetDeleted(r.doc, r.nodes[id], false), r.nodes[id], p, prev, next, gone);
    } else if p in r.doc.kids {
      CreateAside(r.doc, p, prev, next, gone);
    }
  }

  lemma {:induction false} HouseAside(r: Rep, p: TreeID, objects: seq<SlideObject>, ids: seq<nat>, gone: set<TreeID>)
    requires Aside(r, gone) && p !in gone
    ensures var (q, order) := HouseObjects(r, p, objects, ids);
            HouseObjects(SweptRep(r, gone), p, objects, ids) == (SweptRep(q, gone), order) && Apart(order, gone) && Aside(q, gone)
    decreases |objects|
  {
    hide SetDeleted, Housed, WriteObject, Idle, Swept;
    if objects != [] && ids != [] {
      var known := ids[0] in r.nodes;
      var (q, n) :=
        if known then (r.(doc := SetDeleted(r.doc, r.nodes[ids[0]], false)), r.nodes[ids[0]])
        else Housed(r, ids[0], false, p, None, None);
      if known {
        SetDeletedAside(r.doc, n, false, gone);
      } else {
        HousedAside(r, ids[0], false, p, None, None, gone);
      }
      ObjectAside(q.doc, n, objects[0], gone);
      HouseAside(q.(doc := WriteObject(q.doc, n, objects[0])), p, objects[1..], ids[1..], gone);
    }
  }

  lemma InsertSlideAside(r: Rep, at: nat, page: Slide, gone: set<TreeID>)
    requires Aside(r, gone)
    ensures var op := InsertSlide(at, page); Write(SweptRep(r, gone), op) == SweptRep(Write(r, op), gone) && Aside(Write(r, op), gone)
  {
    hide HouseObjects, Housed, Order, WriteSlide, Swept, Neighbours;
    if at < |r.deck| {
      var s := r.deck[at];
      var (prev, next) := Neighbours(r.nodes, SlideIdsOf(r.deck), at);
      var (q, n) := Housed(r, s.ids.slide, page.ids.slide != 0, ROOT, prev, next);
      HousedAside(r, s.ids.slide, page.ids.slide != 0, ROOT, prev, next, gone);
      var (t, order) := HouseObjects(q, n, s.objects, s.ids.objects);
      HouseAside(q, n, s.objects, s.ids.objects, gone);
      OrderAside(t.doc, n, order, gone);
      SlideAside(Order(t.doc, n, order), t.nodes, n, s, gone);
    }
  }

  lemma EditAside(r: Rep, op: Op, s: Slide, p: TreeID, gone: set<TreeID>)
    requires op.SetSlide? || op.InsertObject? || op.MoveObject? || op.SetObject?
    requires Aside(r, gone) && p !in gone
    ensures WriteOnSlide(SweptRep(r, gone), op, s, p) == SweptRep(WriteOnSlide(r, op, s, p), gone) && Aside(WriteOnSlide(r, op, s, p), gone)
  {
    hide Housed, WriteObject, WriteSlide, Place, Swept, Neighbours, Idle;
    match op
    case SetSlide(_, _) => SlideAside(r.doc, r.nodes, p, s, gone);
    case InsertObject(_, at, id, _) =>
      var (prev, next) := Neighbours(r.nodes, s.ids.objects, at);
      HousedAside(r, id, true, p, prev, next, gone);
      if at < |s.objects| {
        var (q, n) := Housed(r, id, true, p, prev, next);
        ObjectAside(q.doc, n, s.objects[at], gone);
      }
    case MoveObject(_, id, to) =>
      var (prev, next) := Neighbours(r.nodes, s.ids.objects, to);
      if id in r.nodes {
        PlaceAside(r.doc, r.nodes[id], p, prev, next, gone);
      }
    case SetObject(_, id, _) =>
      var at := IndexOf(s.ids.objects, id);
      if id in r.nodes && at.Some? && at.value < |s.objects| {
        ObjectAside(r.doc, r.nodes[id], s.objects[at.value], gone);
      }
  }

  lemma WriteAside(r: Rep, op: Op, gone: set<TreeID>)
    requires Aside(r, gone)
    ensures Write(SweptRep(r, gone), op) == SweptRep(Write(r, op), gone) && Aside(Write(r, op), gone)
  {
    hide WriteOnSlide, SetDeleted, Place, Swept, Neighbours, Idle;
    match op
    case InsertSlide(at, page) => InsertSlideAside(r, at, page, gone);
    case DeleteSlide(slide) =>
      if slide in r.nodes {
        SetDeletedAside(r.doc, r.nodes[slide], true, gone);
      }
    case DeleteObject(_, id) =>
      if id in r.nodes {
        SetDeletedAside(r.doc, r.nodes[id], true, gone);
      }
    case MoveSlide(slide, to) =>
      var (prev, next) := Neighbours(r.nodes, SlideIdsOf(r.deck), to);
      if slide in r.nodes {
        PlaceAside(r.doc, r.nodes[slide], ROOT, prev, next, gone);
      }
    case SetMaster(_, _) =>
    case _ =>
      var i := SlidePos(r.deck, op.slide);
      if i.Some? && op.slide in r.nodes {
        EditAside(r, op, r.deck[i.value], r.nodes[op.slide], gone);
      }
  }

  // ---------------------------------------------------------------- groups and runs

  lemma {:induction false} OpsAside(r: Rep, ops: seq<Op>, gone: set<TreeID>)
    requires Aside(r, gone)
    ensures var (q, ok) := RecordOps(r, ops); RecordOps(SweptRep(r, gone), ops) == (SweptRep(q, gone), ok) && Aside(q, gone)
    decreases |ops|
  {
    hide Write, Ops.Apply, Idle, Swept;
    if ops != [] {
      var o := Apply(r.deck, ops[0]);
      var q := r.(deck := o.slides);
      if o.reply.Ok? && o.reply.value != [] {
        WriteAside(q, ops[0], gone);
      }
      assert RecordOp(SweptRep(r, gone), ops[0]) == (SweptRep(RecordOp(r, ops[0]).0, gone), RecordOp(r, ops[0]).1);
      if RecordOp(r, ops[0]).1 {
        OpsAside(RecordOp(r, ops[0]).0, ops[1..], gone);
      }
    }
  }

  lemma {:induction false} ReviveAside(d: Loro, nodes: Nodes, deck: seq<Slide>, gone: set<TreeID>)
    requires Idle(d, gone) && forall x :: x in nodes ==> nodes[x] !in gone
    ensures ReviveShown(Swept(d, gone), nodes, deck) == Swept(ReviveShown(d, nodes, deck), gone)
    ensures Idle(ReviveShown(d, nodes, deck), gone)
    decreases |deck|
  {
    hide SetDeleted, Swept, Idle;
    if deck != [] {
      var id := deck[0].ids.slide;
      if id in nodes {
        SetDeletedAside(d, nodes[id], false, gone);
        ReviveAside(SetDeleted(d, nodes[id], false), nodes, deck[1..], gone);
      } else {
        ReviveAside(d, nodes, deck[1..], gone);
      }
    }
  }

  lemma GroupAside(r: Rep, ops: seq<Op>, gone: set<TreeID>)
    requires Aside(r, gone)
    ensures var (q, ok) := RecordGroup(r, ops); RecordGroup(SweptRep(r, gone), ops) == (SweptRep(q, gone), ok) && Aside(q, gone)
  {
    hide RecordOps, ReviveShown, Idle, Swept;
    ReviveAside(r.doc, r.nodes, r.deck, gone);
    OpsAside(r.(doc := ReviveShown(r.doc, r.nodes, r.deck)), ops, gone);
  }

  function SweptPeer(p: Peer, gone: set<TreeID>): Peer {
    p.(rep := SweptRep(p.rep, gone))
  }

  lemma {:induction false} RunAside(p: Peer, events: seq<Event>, gone: set<TreeID>)
    requires Aside(p.rep, gone)
    ensures MirroredRun(SweptPeer(p, gone), events) == SweptPeer(MirroredRun(p, events), gone)
    ensures Aside(MirroredRun(p, events).rep, gone)
    decreases |events|
  {
    hide RecordGroup, Idle, Swept, Do, ApplyAll;
    if events != [] {
      match events[0] {
        case EditEvent(ops, _) => GroupAside(p.rep, ops, gone);
        case UndoEvent =>
          if p.session.steps.undo != [] {
            GroupAside(p.rep, Last(p.session.steps.undo), gone);
          }
        case RedoEvent =>
          if p.session.steps.redo != [] {
            GroupAside(p.rep, Last(p.session.steps.redo), gone);
          }
      }
      assert Mirrored(SweptPeer(p, gone), events[0]) == SweptPeer(Mirrored(p, events[0]), gone);
      RunAside(Mirrored(p, events[0]), events[1..], gone);
    }
  }

  // ---------------------------------------------------------------- what is shown

  /** Nodes that make no object are passed over, deleted or not. */
  lemma {:induction false} KidsAside(d: Loro, kids: seq<TreeID>, keep: set<TreeID>, gone: set<TreeID>)
    requires forall n :: n in gone ==> ReadObject(d, n).None?
    ensures ReadKids(Swept(d, gone), Pick(kids, keep - gone)) == ReadKids(d, Pick(kids, keep))
  {
    hide ReadObject, Swept;
    if kids != [] {
      KidsAside(d, kids[1..], keep, gone);
      SweptReads(d, kids[0], gone);
      var a, b := Pick(kids[1..], keep - gone), Pick(kids[1..], keep);
      assert ([kids[0]] + a)[1..] == a && ([kids[0]] + b)[1..] == b;
    }
  }

  lemma SweptReads(d: Loro, n: TreeID, gone: set<TreeID>)
    ensures ReadObject(Swept(d, gone), n) == ReadObject(d, n) && ReadProps(Swept(d, gone), n) == ReadProps(d, n)
    ensures ReadBuilds(Swept(d, gone), n) == ReadBuilds(d, n)
  {
    assert RegsSame(d, Swept(d, gone), n);
    SameReads(d, Swept(d, gone), n);
  }

  lemma SweptLive(d: Loro, gone: set<TreeID>)
    ensures LiveSet(Swept(d, gone)) == LiveSet(d) - gone
  {
  }

  lemma SweptSlide(d: Loro, n: TreeID, next: nat, gone: set<TreeID>)
    requires Idle(d, gone)
    ensures ReadSlide(Swept(d, gone), n, next) == ReadSlide(d, n, next)
  {
    hide ReadObject, ReadProps, ReadBuilds, Pick, Swept, LiveSet;
    SweptLive(d, gone);
    assert Children(Swept(d, gone), n) == Children(d, n);
    KidsAside(d, Children(d, n), LiveSet(d), gone);
    SweptReads(d, n, gone);
  }

  lemma {:induction false} SweptDeck(d: Loro, shown: seq<TreeID>, next: nat, gone: set<TreeID>)
    requires Idle(d, gone)
    ensures ReadDeck(Swept(d, gone), shown, next) == ReadDeck(d, shown, next)
    ensures ReadNodes(Swept(d, gone), shown, next) == ReadNodes(d, shown, next)
  {
    hide ReadSlide, Swept, Idle;
    if shown != [] {
      SweptSlide(d, shown[0], next, gone);
      SweptDeck(d, shown[1..], next + |ReadSlide(d, shown[0], next).1|, gone);
    }
  }

  lemma SweptShown(d: Loro, gone: set<TreeID>)
    requires Idle(d, gone)
    ensures ShownSlides(Swept(d, gone)) == ShownSlides(d)
  {
    hide ReadObject, Pick;
    SweptLive(d, gone);
    PickSame(Children(d, ROOT), LiveSet(d), LiveSet(Swept(d, gone)));
  }

  /** With them deleted the document shows the same deck. */
  lemma SweptRebuilt(d: Loro, gone: set<TreeID>)
    requires Idle(d, gone)
    ensures Rebuilt(Swept(d, gone)) == Rebuilt(d) && RebuiltRep(Swept(d, gone)) == SweptRep(RebuiltRep(d), gone)
  {
    hide ReadDeck, ReadNodes, Idle, Swept;
    SweptShown(d, gone);
    SweptDeck(d, ShownSlides(d), 1, gone);
  }
}
