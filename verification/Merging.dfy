/** Two peers' documents merged: registers by their newest write, whatever
    becomes of tree positions. A delete wins over moves and edits. */
module Merging {
  import opened Engine
  import opened Sequences
  import opened Ops
  import opened Numbering
  import opened OpLaws
  import opened Tree
  import opened Replicas
  import opened RegisterLaws

  type Regs = map<(TreeID, Key), Reg>

  // ---------------------------------------------------------------- registers

  /** The later of two writes; of two at one clock, the larger peer's. */
  function Newer(a: Reg, b: Reg): Reg {
    if a.clock > b.clock || (a.clock == b.clock && a.peer >= b.peer) then a else b
  }

  function MergeRegs(a: Regs, b: Regs): (r: Regs)
    ensures r.Keys == a.Keys + b.Keys
  {
    map k | k in a.Keys + b.Keys :: if k in a && k in b then Newer(a[k], b[k]) else if k in a then a[k] else b[k]
  }

  /** One peer writes one thing at one clock. */
  ghost predicate Compatible(a: Regs, b: Regs) {
    forall k :: k in a && k in b && a[k].clock == b[k].clock && a[k].peer == b[k].peer ==> a[k] == b[k]
  }

  lemma MergeCommutes(a: Regs, b: Regs)
    requires Compatible(a, b)
    ensures MergeRegs(a, b) == MergeRegs(b, a)
  {
  }

  lemma MergeAssociates(a: Regs, b: Regs, c: Regs)
    requires Compatible(a, b) && Compatible(b, c) && Compatible(a, c)
    ensures MergeRegs(MergeRegs(a, b), c) == MergeRegs(a, MergeRegs(b, c))
  {
    var l, r := MergeRegs(MergeRegs(a, b), c), MergeRegs(a, MergeRegs(b, c));
    assert l.Keys == r.Keys;
    forall k | k in l
      ensures l[k] == r[k]
    {
    }
  }

  lemma MergeIdempotent(a: Regs)
    ensures MergeRegs(a, a) == a
  {
  }

  // ---------------------------------------------------------------- what local edits write

  function NoteOf(d: Loro, n: TreeID): Option<Reg> {
    if (n, Deleted) in d.regs then Some(d.regs[(n, Deleted)]) else None
  }

  /** `e` is `d` after writes of its own peer, each later than all of `d`;
      and none on the tombstone of `n`. */
  ghost predicate Local(d: Loro, e: Loro, n: TreeID) {
    && e.peer == d.peer && d.clock <= e.clock && d.next <= e.next
    && (forall k :: k in d.regs ==> k in e.regs)
    && (forall k :: k in e.regs ==>
          (k in d.regs && e.regs[k] == d.regs[k]) || (e.regs[k].peer == e.peer && d.clock < e.regs[k].clock <= e.clock))
    && NoteOf(e, n) == NoteOf(d, n)
  }

  /** `n` is not a node the replica has still to make. */
  predicate Made(d: Loro, n: TreeID) {
    n.peer == d.peer ==> n.count < d.next
  }

  lemma LocalKeeps(d: Loro, e: Loro, n: TreeID)
    requires Local(d, e, n)
    ensures (IsDeleted(e, n) <==> IsDeleted(d, n)) && (Made(d, n) ==> Made(e, n)) && d.clock <= e.clock
  {
    assert (n, Deleted) in d.regs <==> (n, Deleted) in e.regs;
  }

  lemma LocalTwice(d: Loro, e: Loro, f: Loro, n: TreeID)
    requires Local(d, e, n) && Local(e, f, n)
    ensures Local(d, f, n)
  {
  }

  lemma LocalSame(d: Loro, e: Loro, n: TreeID)
    requires e.regs == d.regs && e.peer == d.peer && e.clock == d.clock && d.next <= e.next
    ensures Local(d, e, n)
  {
  }

  lemma PutLocal(d: Loro, m: TreeID, k: Key, v: Option<Value>, n: TreeID)
    requires k != Deleted
    ensures Local(d, Put(d, m, k, v), n)
  {
  }

  lemma {:induction false} PutKeysLocal(d: Loro, m: TreeID, values: Key -> Option<Value>, list: seq<Key>, n: TreeID)
    requires Deleted !in list
    ensures Local(d, PutKeys(d, m, values, list), n)
    decreases |list|
  {
    hide Local, Put;
    if list == [] {
      LocalSame(d, d, n);
    } else {
      var e := Put(d, m, list[0], values(list[0]));
      PutLocal(d, m, list[0], values(list[0]), n);
      PutKeysLocal(e, m, values, list[1..], n);
      LocalTwice(d, e, PutKeys(e, m, values, list[1..]), n);
    }
  }

  lemma ObjectLocal(d: Loro, m: TreeID, o: SlideObject, n: TreeID)
    ensures Local(d, WriteObject(d, m, o), n)
  {
    hide Local, PutKeys;
    ObjectKeyList(o, FX);
    PutKeysLocal(d, m, k => ObjectReg(o, k), ObjectKeys(o), n);
  }

  lemma SlideLocal(d: Loro, nodes: Nodes, m: TreeID, s: Slide, n: TreeID)
    ensures Local(d, WriteSlide(d, nodes, m, s), n)
  {
    hide Local, PutKeys;
    SlideKeyList(s);
    PutKeysLocal(d, m, k => SlideReg(nodes, s, k), SlideKeys(s), n);
  }

  /** Clearing the tombstone of a live node writes nothing. */
  lemma ReviveLocal(d: Loro, m: TreeID, n: TreeID)
    requires m == n ==> !IsDeleted(d, n)
    ensures Local(d, SetDeleted(d, m, false), n)
  {
  }

  /** Nor does setting that of a dead one. */
  lemma DeleteLocal(d: Loro, m: TreeID, n: TreeID)
    requires m == n ==> IsDeleted(d, n)
    ensures Local(d, SetDeleted(d, m, true), n)
  {
  }

  lemma PlaceLocal(d: Loro, m: TreeID, p: TreeID, prev: Option<TreeID>, next: Option<TreeID>, n: TreeID)
    ensures Local(d, Place(d, m, p, prev, next), n)
  {
    LocalSame(d, Place(d, m, p, prev, next), n);
  }

  lemma CreateLocal(d: Loro, p: TreeID, prev: Option<TreeID>, next: Option<TreeID>, n: TreeID)
    requires p in d.kids
    ensures Local(d, Create(d, p, prev, next).0, n)
  {
    LocalSame(d, Create(d, p, prev, next).0, n);
  }

  lemma {:induction false} OrderFromLocal(d: Loro, p: TreeID, order: seq<TreeID>, j: nat, n: TreeID)
    requires 0 < j <= |order|
    ensures Local(d, OrderFrom(d, p, order, j), n)
    decreases |order| - j
  {
    hide Local, Place;
    if j == |order| {
      LocalSame(d, d, n);
    } else {
      var e := Place(d, order[j], p, Some(order[j - 1]), None);
      PlaceLocal(d, order[j], p, Some(order[j - 1]), None, n);
      OrderFromLocal(e, p, order, j + 1, n);
      LocalTwice(d, e, OrderFrom(e, p, order, j + 1), n);
    }
  }

  lemma OrderLocal(d: Loro, p: TreeID, order: seq<TreeID>, n: TreeID)
    ensures Local(d, Order(d, p, order), n)
  {
    hide Local, Place, OrderFrom;
    var now := Pick(Children(d, p), set x | x in order);
    LocalSame(d, d, n);
    if now != order && order != [] {
      var next := if now != [] && now[0] != order[0] then Some(now[0]) else None;
      PlaceLocal(d, order[0], p, None, next, n);
      var e := Place(d, order[0], p, None, next);
      OrderFromLocal(e, p, order, 1, n);
      LocalTwice(d, e, OrderFrom(e, p, order, 1), n);
    }
  }

  /** The node of `id` is `n`. */
  predicate Names(nodes: Nodes, id: nat, n: TreeID) {
    id in nodes && nodes[id] == n
  }

  lemma HousedLocal(r: Rep, id: nat, known: bool, p: TreeID, prev: Option<TreeID>, next: Option<TreeID>, n: TreeID)
    requires known && Names(r.nodes, id, n) ==> !IsDeleted(r.doc, n)
    ensures Local(r.doc, Housed(r, id, known, p, prev, next).0.doc, n)
  {
    hide Local, Place, Create, SetDeleted;
    LocalSame(r.doc, r.doc, n);
    if known && id in r.nodes {
      var m := r.nodes[id];
      var e := SetDeleted(r.doc, m, false);
      ReviveLocal(r.doc, m, n);
      PlaceLocal(e, m, p, prev, next, n);
      LocalTwice(r.doc, e, Place(e, m, p, prev, next), n);
    } else if p in r.doc.kids {
      CreateLocal(r.doc, p, prev, next, n);
    }
  }

  lemma HousedNames(r: Rep, id: nat, p: TreeID, n: TreeID, x: nat)
    requires Made(r.doc, n)
    ensures var q := Housed(r, id, false, p, None, None).0;
            Names(q.nodes, x, n) ==> Names(r.nodes, x, n) || p == n
  {
  }

  lemma {:induction false} HouseLocal(r: Rep, p: TreeID, objects: seq<SlideObject>, ids: seq<nat>, n: TreeID)
    requires Made(r.doc, n)
    requires IsDeleted(r.doc, n) ==> p != n && forall x :: x in ids ==> !Names(r.nodes, x, n)
    ensures Local(r.doc, HouseObjects(r, p, objects, ids).0.doc, n)
    decreases |objects|
  {
    hide Local, Housed, WriteObject, SetDeleted, Made, IsDeleted, Names;
    if objects == [] || ids == [] {
      LocalSame(r.doc, r.doc, n);
    } else {
      var id := ids[0];
      var (q, m) :=
        if id in r.nodes then (r.(doc := SetDeleted(r.doc, r.nodes[id], false)), r.nodes[id])
        else Housed(r, id, false, p, None, None);
      assert id in ids && forall x :: x in ids[1..] ==> x in ids;
      if id in r.nodes {
        NamesIs(r.nodes, id, n);
        ReviveLocal(r.doc, r.nodes[id], n);
      } else {
        HousedLocal(r, id, false, p, None, None, n);
        forall x | x in ids[1..]
          ensures Names(q.nodes, x, n) ==> Names(r.nodes, x, n) || p == n
        {
          HousedNames(r, id, p, n, x);
        }
      }
      var e := WriteObject(q.doc, m, objects[0]);
      ObjectLocal(q.doc, m, objects[0], n);
      LocalTwice(r.doc, q.doc, e, n);
      LocalKeeps(r.doc, e, n);
      HouseLocal(q.(doc := e), p, objects[1..], ids[1..], n);
      LocalTwice(r.doc, e, HouseObjects(q.(doc := e), p, objects[1..], ids[1..]).0.doc, n);
    }
  }

  lemma NamesIs(nodes: Nodes, id: nat, n: TreeID)
    requires id in nodes
    ensures Names(nodes, id, n) <==> nodes[id] == n
  {
  }

  /** `op` deletes the slide or object whose node is `n`. */
  predicate Deletes(nodes: Nodes, op: Op, n: TreeID) {
    || (op.DeleteSlide? && op.slide in nodes && nodes[op.slide] == n)
    || (op.DeleteObject? && op.id in nodes && nodes[op.id] == n)
  }

  /** `op`, just applied to the deck, puts the slide or object whose node is
      `n` back in. */
  predicate PutsBack(r: Rep, op: Op, n: TreeID) {
    || (op.InsertObject? && Names(r.nodes, op.id, n))
    || (op.InsertSlide? && op.at < |r.deck| && (
          var s := r.deck[op.at];
          (op.page.ids.slide != 0 && Names(r.nodes, s.ids.slide, n)) || exists x :: x in s.ids.objects && Names(r.nodes, x, n)))
  }

  /** Writing `op` sets no live node's tombstone, and clears no dead one's. */
  predicate Spares(r: Rep, op: Op, n: TreeID) {
    if IsDeleted(r.doc, n) then !PutsBack(r, op, n) else !Deletes(r.nodes, op, n)
  }

  lemma HousedNode(r: Rep, id: nat, known: bool, p: TreeID, prev: Option<TreeID>, next: Option<TreeID>, n: TreeID)
    requires Made(r.doc, n) && p != n
    ensures var (q, m) := Housed(r, id, known, p, prev, next);
            && (m == n ==> known && Names(r.nodes, id, n))
            && forall x :: Names(q.nodes, x, n) ==> Names(r.nodes, x, n)
  {
  }

  lemma InsertSlideLocal(r: Rep, at: nat, page: Slide, n: TreeID)
    requires Made(r.doc, n) && Spares(r, InsertSlide(at, page), n) && n != ROOT
    ensures Local(r.doc, Write(r, InsertSlide(at, page)).doc, n)
  {
    hide Local, Housed, HouseObjects, WriteSlide, Order, Made, IsDeleted, Names;
    if at >= |r.deck| {
      LocalSame(r.doc, r.doc, n);
    } else {
      var s := r.deck[at];
      var (prev, next) := Neighbours(r.nodes, SlideIdsOf(r.deck), at);
      var (q, m) := Housed(r, s.ids.slide, page.ids.slide != 0, ROOT, prev, next);
      HousedLocal(r, s.ids.slide, page.ids.slide != 0, ROOT, prev, next, n);
      HousedNode(r, s.ids.slide, page.ids.slide != 0, ROOT, prev, next, n);
      LocalKeeps(r.doc, q.doc, n);
      var (t, order) := HouseObjects(q, m, s.objects, s.ids.objects);
      HouseLocal(q, m, s.objects, s.ids.objects, n);
      LocalTwice(r.doc, q.doc, t.doc, n);
      var e := Order(t.doc, m, order);
      OrderLocal(t.doc, m, order, n);
      LocalTwice(r.doc, t.doc, e, n);
      SlideLocal(e, t.nodes, m, s, n);
      LocalTwice(r.doc, e, WriteSlide(e, t.nodes, m, s), n);
    }
  }

  lemma EditLocal(r: Rep, op: Op, s: Slide, p: TreeID, n: TreeID)
    requires op.SetSlide? || op.InsertObject? || op.MoveObject? || op.SetObject?
    requires Spares(r, op, n)
    ensures Local(r.doc, WriteOnSlide(r, op, s, p).doc, n)
  {
    hide Local, Housed, WriteSlide, WriteObject, Place, IsDeleted, Names;
    LocalSame(r.doc, r.doc, n);
    match op
    case SetSlide(_, _) => SlideLocal(r.doc, r.nodes, p, s, n);
    case InsertObject(_, at, id, _) =>
      var (prev, next) := Neighbours(r.nodes, s.ids.objects, at);
      var (q, m) := Housed(r, id, true, p, prev, next);
      HousedLocal(r, id, true, p, prev, next, n);
      if at < |s.objects| {
        ObjectLocal(q.doc, m, s.objects[at], n);
        LocalTwice(r.doc, q.doc, WriteObject(q.doc, m, s.objects[at]), n);
      }
    case MoveObject(_, id, to) =>
      var (prev, next) := Neighbours(r.nodes, s.ids.objects, to);
      if id in r.nodes {
        PlaceLocal(r.doc, r.nodes[id], p, prev, next, n);
      }
    case SetObject(_, id, _) =>
      var at := IndexOf(s.ids.objects, id);
      if id in r.nodes && at.Some? && at.value < |s.objects| {
        ObjectLocal(r.doc, r.nodes[id], s.objects[at.value], n);
      }
  }

  /** Writing an op that spares `n` leaves its tombstone register alone, and
      stamps all else with this peer. */
  lemma OpLocal(r: Rep, op: Op, n: TreeID)
    requires Spares(r, op, n) && Made(r.doc, n) && n != ROOT
    ensures Local(r.doc, Write(r, op).doc, n)
  {
    hide Local, WriteOnSlide, Place, SetDeleted, IsDeleted, PutsBack, Made;
    LocalSame(r.doc, r.doc, n);
    match op
    case InsertSlide(at, page) => InsertSlideLocal(r, at, page, n);
    case DeleteSlide(slide) =>
      if slide in r.nodes {
        DeleteLocal(r.doc, r.nodes[slide], n);
      }
    case DeleteObject(_, id) =>
      if id in r.nodes {
        DeleteLocal(r.doc, r.nodes[id], n);
      }
    case MoveSlide(slide, to) =>
      var (prev, next) := Neighbours(r.nodes, SlideIdsOf(r.deck), to);
      if slide in r.nodes {
        PlaceLocal(r.doc, r.nodes[slide], ROOT, prev, next, n);
      }
    case SetMaster(_, _) =>
    case _ =>
      var i := SlidePos(r.deck, op.slide);
      if i.Some? && op.slide in r.nodes {
        EditLocal(r, op, r.deck[i.value], r.nodes[op.slide], n);
      }
  }

  /** No op of the group, where it is recorded, deletes `n` or puts it back. */
  ghost predicate SparesAll(r: Rep, ops: seq<Op>, n: TreeID)
    decreases |ops|
  {
    ops == [] || (Spares(r.(deck := Apply(r.deck, ops[0]).slides), ops[0], n) && SparesAll(RecordOp(r, ops[0]).0, ops[1..], n))
  }

  lemma RecordLocal(r: Rep, op: Op, n: TreeID)
    requires Made(r.doc, n) && n != ROOT && Spares(r.(deck := Apply(r.deck, op).slides), op, n)
    ensures Local(r.doc, RecordOp(r, op).0.doc, n)
  {
    hide Local, Write, Apply, Made, Spares;
    LocalSame(r.doc, r.doc, n);
    OpLocal(r.(deck := Apply(r.deck, op).slides), op, n);
  }

  lemma {:induction false} OpsLocal(r: Rep, ops: seq<Op>, n: TreeID)
    requires SparesAll(r, ops, n) && Made(r.doc, n) && n != ROOT
    ensures Local(r.doc, RecordOps(r, ops).0.doc, n)
    decreases |ops|
  {
    hide Local, RecordOp, Apply, Made, Spares;
    LocalSame(r.doc, r.doc, n);
    if ops != [] {
      RecordLocal(r, ops[0], n);
      var q := RecordOp(r, ops[0]).0;
      LocalKeeps(r.doc, q.doc, n);
      OpsLocal(q, ops[1..], n);
      LocalTwice(r.doc, q.doc, RecordOps(q, ops[1..]).0.doc, n);
    }
  }

  /** `n` is not the node of a slide of the deck. */
  ghost predicate NotShown(nodes: Nodes, deck: seq<Slide>, n: TreeID) {
    forall s :: s in deck ==> !Names(nodes, s.ids.slide, n)
  }

  lemma {:induction false} ShownLocal(d: Loro, nodes: Nodes, deck: seq<Slide>, n: TreeID)
    requires IsDeleted(d, n) ==> NotShown(nodes, deck, n)
    ensures Local(d, ReviveShown(d, nodes, deck), n)
    decreases |deck|
  {
    hide Local, SetDeleted, IsDeleted, Names;
    LocalSame(d, d, n);
    if deck != [] {
      var id := deck[0].ids.slide;
      var e := if id in nodes then SetDeleted(d, nodes[id], false) else d;
      assert deck[0] in deck && forall s :: s in deck[1..] ==> s in deck;
      if id in nodes {
        NamesIs(nodes, id, n);
        ReviveLocal(d, nodes[id], n);
      }
      LocalKeeps(d, e, n);
      ShownLocal(e, nodes, deck[1..], n);
      LocalTwice(d, e, ReviveShown(e, nodes, deck[1..]), n);
    }
  }

  /** The groups of a replica, recorded one after the other. */
  function RecordGroups(r: Rep, groups: seq<seq<Op>>): Rep
    decreases |groups|
  {
    if groups == [] then r else RecordGroups(RecordGroup(r, groups[0]).0, groups[1..])
  }

  /** As `SparesAll`, and where `n` is dead no slide shown is brought back
      under it. */
  ghost predicate SparesGroup(r: Rep, ops: seq<Op>, n: TreeID) {
    && (IsDeleted(r.doc, n) ==> NotShown(r.nodes, r.deck, n))
    && SparesAll(r.(doc := ReviveShown(r.doc, r.nodes, r.deck)), ops, n)
  }

  ghost predicate SparesGroups(r: Rep, groups: seq<seq<Op>>, n: TreeID)
    decreases |groups|
  {
    groups == [] || (SparesGroup(r, groups[0], n) && SparesGroups(RecordGroup(r, groups[0]).0, groups[1..], n))
  }

  lemma GroupLocal(r: Rep, ops: seq<Op>, n: TreeID)
    requires SparesGroup(r, ops, n) && Made(r.doc, n) && n != ROOT
    ensures Local(r.doc, RecordGroup(r, ops).0.doc, n)
  {
    hide Local, RecordOps, ReviveShown, Made, IsDeleted, SparesAll, NotShown;
    var s := r.(doc := ReviveShown(r.doc, r.nodes, r.deck));
    ShownLocal(r.doc, r.nodes, r.deck, n);
    LocalKeeps(r.doc, s.doc, n);
    OpsLocal(s, ops, n);
    LocalTwice(r.doc, s.doc, RecordOps(s, ops).0.doc, n);
  }

  /** Whatever groups a replica records that neither delete `n` nor put it
      back: moves, edits, inserts, deletes of others, undone or not, none
      writes its tombstone. */
  lemma {:induction false} GroupsLocal(r: Rep, groups: seq<seq<Op>>, n: TreeID)
    requires SparesGroups(r, groups, n) && Made(r.doc, n) && n != ROOT
    ensures Local(r.doc, RecordGroups(r, groups).doc, n)
    decreases |groups|
  {
    hide Local, RecordGroup, SparesGroup, Made;
    LocalSame(r.doc, r.doc, n);
    if groups != [] {
      GroupLocal(r, groups[0], n);
      var q := RecordGroup(r, groups[0]).0;
      LocalKeeps(r.doc, q.doc, n);
      GroupsLocal(q, groups[1..], n);
      LocalTwice(r.doc, q.doc, RecordGroups(q, groups[1..]).doc, n);
    }
  }

  // ---------------------------------------------------------------- a delete against moves and edits

  /** Where the nodes of a merged document stand: any tree. */
  datatype TreeShape = TreeShape(parent: map<TreeID, TreeID>, kids: map<TreeID, seq<TreeID>>)

  /** `d` with what `e` has that it lacks, its nodes as `shape` says. */
  function Merged(d: Loro, e: Loro, shape: TreeShape): Loro {
    Loro(shape.parent, shape.kids, MergeRegs(d.regs, e.regs), if d.clock >= e.clock then d.clock else e.clock, d.peer, d.next)
  }

  /** All writes a document has seen are no later than its clock. */
  ghost predicate Stamped(d: Loro) {
    forall k :: k in d.regs ==> d.regs[k].clock <= d.clock
  }

  /** The tombstone of `n` is as in `base`, or set later. */
  ghost predicate AsWasOrDead(base: Loro, d: Loro, n: TreeID) {
    || NoteOf(d, n) == NoteOf(base, n)
    || Dead(base, d, n)
  }

  /** The tombstone of `n` was set after all of `base`. */
  ghost predicate Dead(base: Loro, d: Loro, n: TreeID) {
    NoteOf(d, n).Some? && NoteOf(d, n).value.value == Some(VBool(true)) && NoteOf(d, n).value.clock > base.clock
  }

  lemma MergedNote(base: Loro, d: Loro, e: Loro, shape: TreeShape, n: TreeID)
    requires Stamped(base) && AsWasOrDead(base, d, n) && AsWasOrDead(base, e, n)
    ensures AsWasOrDead(base, Merged(d, e, shape), n)
    ensures Dead(base, d, n) || Dead(base, e, n) ==> Dead(base, Merged(d, e, shape), n)
  {
    var m := Merged(d, e, shape);
    var k := (n, Deleted);
    assert k in m.regs <==> k in d.regs || k in e.regs;
  }

  /** Documents merged one after another, in any order, with any tree. */
  function MergedAll(d: Loro, others: seq<(Loro, TreeShape)>): Loro
    decreases |others|
  {
    if others == [] then d else MergedAll(Merged(d, others[0].0, others[0].1), others[1..])
  }

  /** What one peer deleted and every other only moved or edited stays
      deleted, whoever merges what in whatever order. */
  lemma {:induction false} DeleteWins(base: Loro, d: Loro, others: seq<(Loro, TreeShape)>, n: TreeID)
    requires Stamped(base) && AsWasOrDead(base, d, n)
    requires forall o :: o in others ==> AsWasOrDead(base, o.0, n)
    requires Dead(base, d, n) || exists o :: o in others && Dead(base, o.0, n)
    ensures var m := MergedAll(d, others);
            IsDeleted(m, n) && forall p :: n !in LiveKids(m, p)
    decreases |others|
  {
    hide AsWasOrDead, Dead, Stamped, LiveKids, Merged, IsDeleted;
    if others == [] {
      DeadIsDeleted(base, d, n);
    } else {
      var (e, shape) := others[0];
      assert others[0] in others;
      MergedNote(base, d, e, shape, n);
      forall o | o in others[1..]
        ensures AsWasOrDead(base, o.0, n)
      {
        assert o in others;
      }
      if !Dead(base, d, n) && !Dead(base, e, n) {
        var o :| o in others && Dead(base, o.0, n);
        assert o in others[1..];
      }
      DeleteWins(base, Merged(d, e, shape), others[1..], n);
    }
  }

  lemma DeadIsDeleted(base: Loro, d: Loro, n: TreeID)
    requires Dead(base, d, n)
    ensures IsDeleted(d, n) && forall p :: n !in LiveKids(d, p)
  {
    forall p
      ensures n !in LiveKids(d, p)
    {
      PickHas(Children(d, p), LiveSet(d));
    }
  }

  /** Deleting writes a tombstone later than all the replica had. */
  lemma DeleteIsDead(base: Loro, d: Loro, n: TreeID)
    requires base.clock <= d.clock && !IsDeleted(d, n)
    ensures Dead(base, SetDeleted(d, n, true), n)
  {
  }

  /** The op deletes live `n`, and applies. */
  ghost predicate DeletesNow(r: Rep, op: Op, n: TreeID) {
    Deletes(r.nodes, op, n) && !IsDeleted(r.doc, n) && Apply(r.deck, op).reply.Ok? && Apply(r.deck, op).reply.value != []
  }

  /** So does recording the op that deletes it. */
  lemma DeleteRecorded(base: Loro, r: Rep, op: Op, n: TreeID)
    requires DeletesNow(r, op, n) && base.clock <= r.doc.clock
    ensures Dead(base, RecordOp(r, op).0.doc, n) && r.doc.clock <= RecordOp(r, op).0.doc.clock
    ensures Made(r.doc, n) ==> Made(RecordOp(r, op).0.doc, n)
  {
    hide Apply, Dead;
    DeleteIsDead(base, r.doc, n);
  }

  /** An op of the group deletes `n`; the others spare it. */
  ghost predicate DeletesIn(r: Rep, ops: seq<Op>, n: TreeID)
    decreases |ops|
  {
    ops != [] && (
      if DeletesNow(r, ops[0], n) then SparesAll(RecordOp(r, ops[0]).0, ops[1..], n)
      else
        && Spares(r.(deck := Apply(r.deck, ops[0]).slides), ops[0], n)
        && RecordOp(r, ops[0]).1 && DeletesIn(RecordOp(r, ops[0]).0, ops[1..], n))
  }

  lemma StaysDead(base: Loro, d: Loro, e: Loro, n: TreeID)
    requires Dead(base, d, n) && Local(d, e, n)
    ensures Dead(base, e, n)
  {
  }

  lemma {:induction false} DeletedInOps(base: Loro, r: Rep, ops: seq<Op>, n: TreeID)
    requires DeletesIn(r, ops, n) && Made(r.doc, n) && n != ROOT && base.clock <= r.doc.clock
    ensures Dead(base, RecordOps(r, ops).0.doc, n) && Made(RecordOps(r, ops).0.doc, n)
    decreases |ops|
  {
    hide Local, Apply, Made, Spares, Dead, DeletesNow, RecordOp, SparesAll, IsDeleted;
    var q := RecordOp(r, ops[0]).0;
    if DeletesNow(r, ops[0], n) {
      DeleteRecorded(base, r, ops[0], n);
      DeleteApplies(r, ops[0], n);
      OpsLocal(q, ops[1..], n);
      StaysDead(base, q.doc, RecordOps(q, ops[1..]).0.doc, n);
      LocalKeeps(q.doc, RecordOps(q, ops[1..]).0.doc, n);
    } else {
      RecordLocal(r, ops[0], n);
      LocalKeeps(r.doc, q.doc, n);
      DeletedInOps(base, q, ops[1..], n);
    }
  }

  lemma DeleteApplies(r: Rep, op: Op, n: TreeID)
    requires DeletesNow(r, op, n)
    ensures RecordOp(r, op).1
  {
  }

  /** Some group deletes live `n`; what is recorded before and after spares it. */
  ghost predicate DeletesInGroups(r: Rep, groups: seq<seq<Op>>, n: TreeID)
    decreases |groups|
  {
    groups != [] && (
      var s := r.(doc := ReviveShown(r.doc, r.nodes, r.deck));
      if DeletesIn(s, groups[0], n) then SparesGroups(RecordGroup(r, groups[0]).0, groups[1..], n)
      else SparesGroup(r, groups[0], n) && DeletesInGroups(RecordGroup(r, groups[0]).0, groups[1..], n))
  }

  /** What a replica has deleted and not put back is dead in its document,
      whatever else it has recorded. */
  lemma {:induction false} DeletedInGroups(base: Loro, r: Rep, groups: seq<seq<Op>>, n: TreeID)
    requires DeletesInGroups(r, groups, n) && Made(r.doc, n) && n != ROOT && base.clock <= r.doc.clock && !IsDeleted(r.doc, n)
    ensures Dead(base, RecordGroups(r, groups).doc, n)
    decreases |groups|
  {
    hide Local, Made, Dead, RecordOps, ReviveShown, DeletesIn, SparesGroup, SparesGroups, IsDeleted;
    var s := r.(doc := ReviveShown(r.doc, r.nodes, r.deck));
    var q := RecordGroup(r, groups[0]).0;
    if DeletesIn(s, groups[0], n) {
      ShownLocal(r.doc, r.nodes, r.deck, n);
      LocalKeeps(r.doc, s.doc, n);
      DeletedInOps(base, s, groups[0], n);
      GroupsLocal(q, groups[1..], n);
      StaysDead(base, q.doc, RecordGroups(q, groups[1..]).doc, n);
    } else {
      GroupLocal(r, groups[0], n);
      LocalKeeps(r.doc, q.doc, n);
      DeletedInGroups(base, q, groups[1..], n);
    }
  }

  /** A replica forked from `base`: its writes, under its own peer. */
  ghost predicate Forked(base: Loro, r: Rep) {
    r.doc.regs == base.regs && r.doc.clock == base.clock
  }

  /** From forks of one document: a peer that records any groups that only
      move or edit `n`, or leave it alone, and a peer that deletes it in one of
      any groups and does not put it back, meet with `n` deleted, whichever
      takes in the other, and whatever tree they make of it. */
  lemma ForkedDeleteWins(base: Loro, a: Rep, b: Rep, moves: seq<seq<Op>>, deletes: seq<seq<Op>>, n: TreeID,
                         there: TreeShape, here: TreeShape)
    requires Stamped(base) && Forked(base, a) && Forked(base, b) && !IsDeleted(base, n)
    requires Made(a.doc, n) && Made(b.doc, n) && n != ROOT
    requires SparesGroups(a, moves, n) && DeletesInGroups(b, deletes, n)
    ensures var moved, deleted := RecordGroups(a, moves).doc, RecordGroups(b, deletes).doc;
            && IsDeleted(Merged(moved, deleted, here), n) && IsDeleted(Merged(deleted, moved, there), n)
            && forall p :: n !in LiveKids(Merged(moved, deleted, here), p) && n !in LiveKids(Merged(deleted, moved, there), p)
  {
    hide Local, Dead, Merged, LiveKids, SparesGroups, DeletesInGroups, Made, AsWasOrDead, Stamped;
    var moved, deleted := RecordGroups(a, moves).doc, RecordGroups(b, deletes).doc;
    GroupsLocal(a, moves, n);
    SameNote(base, a, moved, n);
    DeletedInGroups(base, b, deletes, n);
    DeadCounts(base, deleted, n);
    MergedNote(base, moved, deleted, here, n);
    MergedNote(base, deleted, moved, there, n);
    DeadIsDeleted(base, Merged(moved, deleted, here), n);
    DeadIsDeleted(base, Merged(deleted, moved, there), n);
  }

  lemma SameNote(base: Loro, a: Rep, e: Loro, n: TreeID)
    requires Forked(base, a) && Local(a.doc, e, n)
    ensures AsWasOrDead(base, e, n)
  {
  }

  lemma DeadCounts(base: Loro, e: Loro, n: TreeID)
    requires Dead(base, e, n)
    ensures AsWasOrDead(base, e, n)
  {
  }

  /** Two forks under different peers never write under one stamp: their
      registers merge to the same, either way. */
  lemma ForksConverge(base: Loro, d: Loro, e: Loro, n: TreeID, a: Loro, b: Loro)
    requires Stamped(base) && a == base.(peer := a.peer) && b == base.(peer := b.peer) && a.peer != b.peer
    requires Local(a, d, n) && Local(b, e, n)
    ensures Compatible(d.regs, e.regs) && MergeRegs(d.regs, e.regs) == MergeRegs(e.regs, d.regs)
  {
    forall k | k in d.regs && k in e.regs && d.regs[k].clock == e.regs[k].clock && d.regs[k].peer == e.regs[k].peer
      ensures d.regs[k] == e.regs[k]
    {
    }
    MergeCommutes(d.regs, e.regs);
  }

  // ---------------------------------------------------------------- ops on what is gone

  /** An op on a slide or object that is not there does nothing, has an empty
      inverse, and is not written. */
  lemma GoneOp(r: Rep, op: Op)
    requires Ready(r.deck)
    requires !op.InsertSlide? && !op.SetMaster?
    requires var i := SlidePos(r.deck, op.slide);
             i.None? || ((op.DeleteObject? || op.MoveObject? || op.SetObject?) && op.id !in r.deck[i.value].ids.objects)
    ensures Apply(r.deck, op) == Outcome(r.deck, Ok([])) && RecordOp(r, op) == (r, true)
  {
    ReadyStays(r.deck);
    if OnOneSlide(op) {
      OneSlideIs(r.deck, op);
      var i := SlidePos(r.deck, op.slide);
      assert i.Some? ==> r.deck[i.value := r.deck[i.value]] == r.deck;
    }
    assert r.(deck := r.deck) == r;
  }
}
