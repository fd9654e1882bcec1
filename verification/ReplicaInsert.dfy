/** A slide put in, new or back from its tombstone, with its objects. */
module ReplicaInsert {
  import opened Engine
  import opened Sequences
  import opened Ops
  import opened Numbering
  import opened OpLaws
  import opened GroupLaws
  import opened Inverses
  import opened Identity
  import opened Tree
  import opened Replicas
  import opened TreeLaws
  import opened RegisterLaws
  import opened ReplicaRel
  import opened ReplicaOps
  import opened ReplicaEdits
  import opened ReplicaSlides

  // ---------------------------------------------------------------- putting children in order

  lemma LengthOf(s: seq<TreeID>, t: seq<TreeID>)
    requires NoDup(s) && NoDup(t) && forall n :: n in s <==> n in t
    ensures |s| == |t|
  {
    hide NoDup;
    SetSize(s);
    SetSize(t);
    assert (set n | n in s) == (set n | n in t);
  }

  lemma {:induction false} SetSize(s: seq<TreeID>)
    requires NoDup(s)
    ensures |set n | n in s| == |s|
  {
    if s != [] {
      SetSize(s[1..]);
      assert (set n | n in s) == (set n | n in s[1..]) + {s[0]};
    }
  }

  /** The node `n` of the live children put right after the one before it. */
  lemma PlacedAfter(d: Loro, p: TreeID, order: seq<TreeID>, j: nat)
    requires WellFormed(d) && p in d.kids && 0 < j < |order| && NoDup(order)
    requires forall n :: n in order <==> n in LiveKids(d, p)
    requires |LiveKids(d, p)| == |order| && LiveKids(d, p)[..j] == order[..j]
    ensures var e := Place(d, order[j], p, Some(order[j - 1]), None);
            && WellFormed(e) && OnlyOrder(d, e, p) && LiveSet(e) == LiveSet(d)
            && LiveKids(e, p) == Insert(Taken(LiveKids(d, p), order[j]), j, order[j])
  {
    hide LiveKids, WellFormed, Place;
    var n := order[j];
    var kids := LiveKids(d, p);
    assert n in order;
    LiveKidParent(d, p, n);
    LiveIn(d, n);
    LiveKidsNoDup(d, p);
    TakenAfter(kids, order, j);
    Placed(d, n, p, j);
    var rest := Taken(kids, n);
    var (prev, next) := Beside(rest, j);
    assert prev == Some(order[j - 1]);
    if j < |rest| {
      TakenKeeps(kids, n);
      assert rest[j] in rest;
      LiveKidParent(d, p, rest[j]);
    }
    PlaceAfterOnly(d, n, p, order[j - 1], next);
  }

  lemma TakenAfter(kids: seq<TreeID>, order: seq<TreeID>, j: nat)
    requires j < |order| && |kids| == |order| && kids[..j] == order[..j] && NoDup(order) && order[j] in kids
    ensures var rest := Taken(kids, order[j]);
            |rest| == |order| - 1 && rest[..j] == order[..j]
  {
    assert forall i :: 0 <= i < j ==> kids[i] == kids[..j][i] && order[i] == order[..j][i];
  }

  lemma PlaceAfterOnly(d: Loro, n: TreeID, p: TreeID, prev: TreeID, next: Option<TreeID>)
    requires InTreeOpt(d, next)
    ensures Place(d, n, p, Some(prev), None) == Place(d, n, p, Some(prev), next)
  {
  }

  lemma {:induction false} OrderedFrom(d: Loro, p: TreeID, order: seq<TreeID>, j: nat)
    requires WellFormed(d) && p in d.kids && 0 < j <= |order| && NoDup(order)
    requires forall n :: n in order <==> n in LiveKids(d, p)
    requires |LiveKids(d, p)| == |order| && LiveKids(d, p)[..j] == order[..j]
    ensures var e := OrderFrom(d, p, order, j);
            WellFormed(e) && OnlyOrder(d, e, p) && LiveSet(e) == LiveSet(d) && LiveKids(e, p) == order
    decreases |order| - j
  {
    hide LiveKids, WellFormed, Place, OnlyOrder;
    if j < |order| {
      var kids := LiveKids(d, p);
      PlacedAfter(d, p, order, j);
      LiveKidsNoDup(d, p);
      assert order[j] in order;
      TakenAfter(kids, order, j);
      TakenKeeps(kids, order[j]);
      NoDupInsert(Taken(kids, order[j]), j, order[j]);
      var e := Place(d, order[j], p, Some(order[j - 1]), None);
      assert LiveKids(e, p)[..j + 1] == order[..j + 1];
      OnlyOrderKids(d, e, p);
      OrderedFrom(e, p, order, j + 1);
      OnlyOrderTwice(d, e, OrderFrom(e, p, order, j + 1), p);
    } else {
      OnlyOrderSelf(d, p);
    }
  }

  lemma OnlyOrderSelf(d: Loro, p: TreeID)
    ensures OnlyOrder(d, d, p)
  {
  }

  lemma OnlyOrderKids(d: Loro, e: Loro, p: TreeID)
    requires OnlyOrder(d, e, p) && p in d.kids
    ensures p in e.kids
  {
  }

  lemma OnlyOrderTwice(d: Loro, e: Loro, f: Loro, p: TreeID)
    requires OnlyOrder(d, e, p) && OnlyOrder(e, f, p)
    ensures OnlyOrder(d, f, p)
  {
  }

  /** The first of `order` put before the others, or left where it is. */
  lemma PlacedFirst(d: Loro, p: TreeID, order: seq<TreeID>)
    requires WellFormed(d) && p in d.kids && order != []
    requires order[0] in LiveKids(d, p)
    ensures var kids := LiveKids(d, p);
            var e := Place(d, order[0], p, None, if kids[0] != order[0] then Some(kids[0]) else None);
            && WellFormed(e) && OnlyOrder(d, e, p) && LiveSet(e) == LiveSet(d)
            && LiveKids(e, p) == Insert(Taken(kids, order[0]), 0, order[0])
  {
    hide LiveKids, WellFormed;
    var n := order[0];
    var kids := LiveKids(d, p);
    LiveKidParent(d, p, n);
    LiveIn(d, n);
    if kids[0] == n {
      assert Taken(kids, n) == kids[1..];
      assert Insert(kids[1..], 0, n) == kids;
      OnlyOrderSelf(d, p);
      assert InTree(d, n);
    } else {
      assert Taken(kids, n)[0] == kids[0];
      Placed(d, n, p, 0);
    }
  }

  /** `order` puts the live children, which it names, in that order. */
  lemma Ordered(d: Loro, p: TreeID, order: seq<TreeID>)
    requires WellFormed(d) && p in d.kids && NoDup(order)
    requires forall n :: n in order <==> n in LiveKids(d, p)
    ensures var e := Order(d, p, order);
            WellFormed(e) && OnlyOrder(d, e, p) && LiveSet(e) == LiveSet(d) && LiveKids(e, p) == order
  {
    hide WellFormed, OnlyOrder, Place, OrderFrom;
    LiveKidsNoDup(d, p);
    LengthOf(order, LiveKids(d, p));
    var wanted := set n | n in order;
    LiveKidsHas(d, p);
    PickSame(Children(d, p), wanted, LiveSet(d));
    var now := LiveKids(d, p);
    assert Pick(Children(d, p), wanted) == now;
    OnlyOrderSelf(d, p);
    if now != order && order != [] {
      assert order[0] in order;
      PlacedFirst(d, p, order);
      var e := Place(d, order[0], p, None, if now[0] != order[0] then Some(now[0]) else None);
      TakenKeeps(now, order[0]);
      NoDupInsert(Taken(now, order[0]), 0, order[0]);
      TakenAfter(now, order, 0);
      OnlyOrderKids(d, e, p);
      OrderedFrom(e, p, order, 1);
      OnlyOrderTwice(d, e, OrderFrom(e, p, order, 1), p);
    }
  }

  // ---------------------------------------------------------------- the objects of a slide put in

  /** `objects` are live and read back from the nodes of `ids`. */
  ghost predicate Shown(d: Loro, nodes: Nodes, objects: seq<SlideObject>, ids: seq<nat>) {
    forall k :: 0 <= k < |ids| && k < |objects| && ids[k] in nodes ==>
      !IsDeleted(d, nodes[ids[k]]) && ReadObject(d, nodes[ids[k]]) == Some(objects[k])
  }

  /** Only registers of the nodes in `some` have changed. */
  ghost predicate OnlyThese(d: Loro, e: Loro, some: seq<TreeID>) {
    && e.kids == d.kids && e.parent == d.parent
    && forall n, k :: n !in some ==> Get(e, n, k) == Get(d, n, k)
  }

  ghost predicate InOrder(d: Loro, nodes: Nodes, p: TreeID, ids: seq<nat>) {
    forall x :: x in ids ==> x in nodes && nodes[x] in d.kids && nodes[x] in d.parent && d.parent[nodes[x]] == p
  }

  /** One object back: alive, with its registers. */
  lemma OneBack(d: Loro, n: TreeID, o: SlideObject)
    requires WellFormed(d) && n in d.kids
    ensures var e := WriteObject(SetDeleted(d, n, false), n, o);
            WellFormed(e) && OnlyThese(d, e, [n]) && !IsDeleted(e, n) && ReadObject(e, n) == Some(o)
  {
    hide WellFormed, WriteObject, ReadObject;
    var f := SetDeleted(d, n, false);
    SetDeletedTree(d, n, false);
    ObjectReadsBack(f, n, o);
    OnlyRegsKeep(f, WriteObject(f, n, o), n);
  }

  lemma SameShown(d: Loro, e: Loro, n: TreeID, o: SlideObject)
    requires !IsDeleted(d, n) && ReadObject(d, n) == Some(o)
    requires forall k :: Get(e, n, k) == Get(d, n, k)
    ensures !IsDeleted(e, n) && ReadObject(e, n) == Some(o)
  {
    hide ReadObject;
    SameObject(d, e, n);
  }

  /** Objects that all have nodes come back to life, each its own node. */
  lemma {:induction false} HouseBack(r: Rep, p: TreeID, objects: seq<SlideObject>, ids: seq<nat>)
    requires WellFormed(r.doc) && |objects| == |ids| && NoDup(ids) && Injective(r.nodes) && InOrder(r.doc, r.nodes, p, ids)
    ensures var (t, order) := HouseObjects(r, p, objects, ids);
            && t.nodes == r.nodes && t.deck == r.deck && order == Named(r.nodes, ids)
            && WellFormed(t.doc) && OnlyThese(r.doc, t.doc, order) && Shown(t.doc, r.nodes, objects, ids)
    decreases |ids|
  {
    hide WellFormed, WriteObject, ReadObject, IsDeleted, SetDeleted;
    if ids != [] {
      assert ids[0] in ids;
      var n := r.nodes[ids[0]];
      OneBack(r.doc, n, objects[0]);
      var q := r.(doc := WriteObject(SetDeleted(r.doc, n, false), n, objects[0]));
      assert NoDup(ids[1..]) && ids[0] !in ids[1..];
      HouseBack(q, p, objects[1..], ids[1..]);
      var (t, rest) := HouseObjects(q, p, objects[1..], ids[1..]);
      assert HouseObjects(r, p, objects, ids) == (t, [n] + rest);
      assert Named(r.nodes, ids) == [n] + Named(r.nodes, ids[1..]);
      NamedHas(r.nodes, ids[1..]);
      assert n !in rest;
      SameShown(q.doc, t.doc, n, objects[0]);
      ShownJoined(t.doc, r.nodes, objects, ids);
      assert forall x :: x in [n] + rest <==> x == n || x in rest;
    }
  }

  lemma ShownJoined(d: Loro, nodes: Nodes, objects: seq<SlideObject>, ids: seq<nat>)
    requires |objects| == |ids| > 0 && Shown(d, nodes, objects[1..], ids[1..])
    requires ids[0] in nodes ==> !IsDeleted(d, nodes[ids[0]]) && ReadObject(d, nodes[ids[0]]) == Some(objects[0])
    ensures Shown(d, nodes, objects, ids)
  {
    hide ReadObject, IsDeleted;
    forall k | 0 < k < |ids| && ids[k] in nodes
      ensures !IsDeleted(d, nodes[ids[k]]) && ReadObject(d, nodes[ids[k]]) == Some(objects[k])
    {
      assert ids[1..][k - 1] == ids[k] && objects[1..][k - 1] == objects[k];
    }
  }

  /** A new node at the end. */
  lemma CreatedLast(d: Loro, p: TreeID)
    requires WellFormed(d) && p in d.kids
    ensures var (e, n) := Create(d, p, None, None);
            Grown(d, e, n, p) && LiveKids(e, p) == LiveKids(d, p) + [n]
  {
    hide Grown, WellFormed;
    var kids := d.kids[p];
    CreatedAt(d, p, |kids|);
    var (e, n) := CreateAt(d, p, |kids|);
    assert Insert(kids, |kids|, n) == kids + [n];
    var live := LiveSet(d) + {n};
    PickJoin(kids, [n], live);
    PickSame(kids, LiveSet(d), live);
    assert Pick([n], live) == [n];
  }

  /** What putting in new objects leaves: all there was, and new children. */
  ghost predicate Added(d: Loro, e: Loro, p: TreeID, more: seq<TreeID>) {
    && Within(d, e, p) && KidsSub(d, e)
    && (forall n, k :: n in d.kids ==> Get(e, n, k) == Get(d, n, k))
    && LiveKids(e, p) == LiveKids(d, p) + more
    && LiveKids(e, ROOT) == LiveKids(d, ROOT)
  }

  lemma OneNew(d: Loro, nodes: Nodes, p: TreeID, id: nat, o: SlideObject)
    requires WellFormed(d) && p in d.kids && TopLevel(d, p) && NodesOk(d, nodes) && id !in nodes
    ensures var (f, n) := Create(d, p, None, None);
            var e := WriteObject(f, n, o);
            && WellFormed(e) && TopLevel(e, p) && p in e.kids && Added(d, e, p, [n])
            && NodesOk(e, nodes[id := n]) && Extends(d, nodes, nodes[id := n])
            && n in e.kids && n != p && n != ROOT && !IsDeleted(e, n) && ReadObject(e, n) == Some(o)
  {
    hide WellFormed, WriteObject, ReadObject, LiveKids, Create, Within, OnlyRegsOf;
    CreatedLast(d, p);
    var (f, n) := Create(d, p, None, None);
    var e := WriteObject(f, n, o);
    GrownFacts(d, f, n, p);
    WithinGrown(d, f, n, p, p);
    RootGrown(d, f, n, p);
    GrownTop(d, f, n, p);
    NewNode(Rep(d, [], nodes), f, n, p, id);
    ObjectReadsBack(f, n, o);
    OnlyRegsKeep(f, e, n);
    OnlyRegsTree(f, e, n);
    OnlyRegsAll(f, e, n);
    WithinWritten(d, f, e, n, p);
  }

  lemma OnlyRegsAll(f: Loro, e: Loro, n: TreeID)
    requires OnlyRegsOf(f, e, n)
    ensures forall m, k :: m != n ==> Get(e, m, k) == Get(f, m, k)
    ensures IsDeleted(e, n) <==> IsDeleted(f, n)
  {
  }

  lemma GrownFacts(d: Loro, f: Loro, n: TreeID, p: TreeID)
    requires Grown(d, f, n, p) && WellFormed(d)
    ensures n !in d.kids && n in f.kids && n != p && n != ROOT && !IsDeleted(f, n) && KidsSub(d, f) && WellFormed(f)
    ensures f.regs == d.regs && f.parent == d.parent[n := p] && n !in d.parent
  {
    assert n in LiveSet(f);
  }

  /** Objects new to the replica get nodes at the end, in order. */
  lemma {:induction false} HouseNew(r: Rep, p: TreeID, objects: seq<SlideObject>, ids: seq<nat>)
    requires WellFormed(r.doc) && p in r.doc.kids && TopLevel(r.doc, p) && NodesOk(r.doc, r.nodes)
    requires |objects| == |ids| && NoDup(ids) && forall x :: x in ids ==> x !in r.nodes
    ensures var (t, order) := HouseObjects(r, p, objects, ids);
            && t.deck == r.deck && WellFormed(t.doc) && TopLevel(t.doc, p) && Added(r.doc, t.doc, p, order)
            && NodesOk(t.doc, t.nodes) && Extends(r.doc, r.nodes, t.nodes)
            && t.nodes.Keys == r.nodes.Keys + (set x | x in ids) && order == Named(t.nodes, ids)
            && Shown(t.doc, t.nodes, objects, ids)
    decreases |ids|
  {
    hide WellFormed, WriteObject, ReadObject, IsDeleted, LiveKids, Create, Within, TopLevel, Added, NodesOk, Shown, Named;
    if ids == [] {
      AddedNone(r.doc, p);
      assert Named(r.nodes, ids) == [];
      assert Shown(r.doc, r.nodes, objects, ids) by { ShownNone(r.doc, r.nodes); }
    } else {
      assert ids[0] in ids;
      OneNew(r.doc, r.nodes, p, ids[0], objects[0]);
      var (f, n) := Create(r.doc, p, None, None);
      var q := Rep(WriteObject(f, n, objects[0]), r.deck, r.nodes[ids[0] := n]);
      assert NoDup(ids[1..]) && ids[0] !in ids[1..];
      HouseNew(q, p, objects[1..], ids[1..]);
      var (t, rest) := HouseObjects(q, p, objects[1..], ids[1..]);
      assert HouseObjects(r, p, objects, ids) == (t, [n] + rest);
      AddedTwice(r.doc, q.doc, t.doc, p, n, rest);
      NamedFirst(t.nodes, ids);
      assert t.nodes[ids[0]] == n;
      AddedShown(q.doc, t.doc, p, rest, n, objects[0]);
      ShownJoined(t.doc, t.nodes, objects, ids);
      AddedSub(r.doc, q.doc, p, [n]);
      ExtendsTwice(r.doc, q.doc, r.nodes, q.nodes, t.nodes);
      assert forall x :: x in ids <==> x == ids[0] || x in ids[1..];
    }
  }

  lemma ShownNone(d: Loro, nodes: Nodes)
    ensures Shown(d, nodes, [], [])
  {
  }

  lemma NamedFirst(nodes: Nodes, ids: seq<nat>)
    requires ids != [] && ids[0] in nodes
    ensures Named(nodes, ids) == [nodes[ids[0]]] + Named(nodes, ids[1..])
  {
  }

  lemma AddedNone(d: Loro, p: TreeID)
    requires WellFormed(d) && TopLevel(d, p)
    ensures Added(d, d, p, [])
  {
    hide WellFormed, LiveKids;
    assert LiveKids(d, p) + [] == LiveKids(d, p);
  }

  lemma AddedSub(d: Loro, e: Loro, p: TreeID, more: seq<TreeID>)
    requires Added(d, e, p, more)
    ensures forall q :: q in d.kids ==> q in e.kids
  {
  }

  lemma AddedTwice(d: Loro, e: Loro, f: Loro, p: TreeID, n: TreeID, rest: seq<TreeID>)
    requires Added(d, e, p, [n]) && Added(e, f, p, rest)
    ensures Added(d, f, p, [n] + rest)
  {
    hide LiveKids, Within;
    WithinTwice(d, e, f, p);
    assert LiveKids(d, p) + ([n] + rest) == LiveKids(d, p) + [n] + rest;
  }

  lemma AddedShown(d: Loro, e: Loro, p: TreeID, more: seq<TreeID>, n: TreeID, o: SlideObject)
    requires Added(d, e, p, more) && n in d.kids && !IsDeleted(d, n) && ReadObject(d, n) == Some(o)
    ensures !IsDeleted(e, n) && ReadObject(e, n) == Some(o)
  {
    hide ReadObject, LiveKids, Within;
    SameShown(d, e, n, o);
  }

  // ---------------------------------------------------------------- InsertSlide

  function InsertPast(a: Past, s: Slide): Past {
    a.(graves := a.graves - {s.ids.slide}, stale := DropStale(a.stale, s.ids.slide))
  }

  /** `n` shows `s` among the slides: its children and objects, not yet its properties. */
  ghost predicate Seated(g: Loro, nodes: Nodes, s: Slide, n: TreeID) {
    && WellFormed(g) && TopLevel(g, n) && n in g.kids
    && NodeIs(nodes, s, n) && AllIn(s.ids.objects, nodes)
    && LiveKids(g, n) == Named(nodes, s.ids.objects)
    && Shown(g, nodes, s.objects, s.ids.objects)
    && NodesOk(g, nodes)
  }

  /** Once its registers are written, the slide shows. */
  lemma SeatedWritten(g: Loro, nodes: Nodes, s: Slide, n: TreeID, stale: set<(nat, nat)>)
    requires Seated(g, nodes, s, n) && Sound(s) && LiveBuilds(s)
    requires forall x :: (s.ids.slide, x) !in stale
    ensures var e := WriteSlide(g, nodes, n, s);
            SlideRel(e, nodes, s, stale) && WellFormed(e) && Within(g, e, n) && e.kids == g.kids && NodesOk(e, nodes)
    ensures forall x :: LiveKids(WriteSlide(g, nodes, n, s), x) == LiveKids(g, x)
    ensures forall x :: IsDeleted(WriteSlide(g, nodes, n, s), x) <==> IsDeleted(g, x)
  {
    hide WellFormed, LiveKids, WriteSlide, ReadObject, ReadProps, ReadBuilds, Within, Named, Stored, KeepNodes, BuildsRel;
    var e := WriteSlide(g, nodes, n, s);
    SlideReadsBack(g, nodes, n, s);
    OnlyRegsKeep(g, e, n);
    OnlyRegsTree(g, e, n);
    WithinRegs(g, e, n, n);
    KidlessOwn(g, n);
    forall k | 0 <= k < |s.objects|
      ensures ReadObject(e, nodes[s.ids.objects[k]]) == Some(s.objects[k])
    {
      assert s.ids.objects[k] in s.ids.objects;
      assert LiveKids(g, n)[k] == nodes[s.ids.objects[k]];
      LiveKidParent(g, n, nodes[s.ids.objects[k]]);
      SameObject(g, e, nodes[s.ids.objects[k]]);
    }
    BuildsWritten(e, nodes, s, stale);
  }

  lemma KidlessOwn(g: Loro, n: TreeID)
    requires WellFormed(g) && TopLevel(g, n)
    ensures n !in Children(g, n)
  {
  }

  lemma PastAfterInsert(r: Rep, a: Past, s: Slide, n: TreeID, e: Loro, nodes: Nodes)
    requires Based(r, a) && Within(r.doc, e, n) && Extends(r.doc, r.nodes, nodes) && NodeIs(nodes, s, n) && NodesOk(e, nodes)
    requires KidsSub(r.doc, e)
    requires forall x :: s.ids.slide in r.nodes && (s.ids.slide, x) in a.tombs && x in r.nodes ==> IsDeleted(e, r.nodes[x])
    ensures PastRel(e, nodes, InsertPast(a, s))
  {
    hide WellFormed, LiveKids, SlidesRel, RootRel, InSet, Within;
    forall g | g in InsertPast(a, s).graves
      ensures GraveRel(e, nodes, g, a.graves[g])
    {
      assert GraveRel(r.doc, r.nodes, g, a.graves[g]);
      GraveStays(r.doc, e, r.nodes, nodes, g, a.graves[g], n);
    }
    forall g, x | (g, x) in a.tombs
      ensures TombRel(e, nodes, g, x)
    {
      assert TombRel(r.doc, r.nodes, g, x);
      NotTop(r.doc, r.nodes, g, x, n, e);
      TombStays(r.doc, e, r.nodes, nodes, g, x, n);
    }
  }

  /** A deleted object's node is not a slide's. */
  lemma NotTop(d: Loro, nodes: Nodes, g: nat, x: nat, n: TreeID, e: Loro)
    requires TombRel(d, nodes, g, x) && NodesOk(d, nodes) && Within(d, e, n)
    ensures nodes[x] != n
  {
  }

  lemma OldSlides(r: Rep, a: Past, s: Slide, n: TreeID, q: Rep, at: nat)
    requires Based(r, a) && at <= |r.deck| && q.deck == Insert(r.deck, at, s)
    requires Within(r.doc, q.doc, n) && Extends(r.doc, r.nodes, q.nodes) && n !in LiveKids(r.doc, ROOT) && n != ROOT
    requires s.ids.slide !in SlideIdsOf(r.deck)
    requires SlideRel(q.doc, q.nodes, s, InsertPast(a, s).stale)
    ensures SlidesRel(q.doc, q.nodes, q.deck, InsertPast(a, s).stale)
  {
    hide WellFormed, LiveKids, RootRel, Within, SlideRel, Rel, Based;
    var b := InsertPast(a, s);
    forall t | t in q.deck
      ensures SlideRel(q.doc, q.nodes, t, b.stale)
    {
      var k :| 0 <= k < |q.deck| && q.deck[k] == t;
      if k != at {
        var j := if k < at then k else k - 1;
        assert t == r.deck[j];
        assert SlideIdsOf(r.deck)[j] in SlideIdsOf(r.deck);
        RelBased(r, a);
        LiveNode(r, a, j);
        LiveStays(r, a, j, q, b, n);
      }
    }
  }

  /** The slide in its place, in deck and document. */
  lemma SlideIn(r: Rep, a: Past, s: Slide, n: TreeID, g: Loro, nodes: Nodes, at: nat)
    requires at <= |r.deck| && Seated(g, nodes, s, n) && Sound(s) && LiveBuilds(s)
    requires Within(r.doc, g, n) && Extends(r.doc, r.nodes, nodes) && KidsSub(r.doc, g)
    requires LiveKids(g, ROOT) == Insert(Named(r.nodes, SlideIdsOf(r.deck)), at, n)
    requires forall x :: s.ids.slide in r.nodes && (s.ids.slide, x) in a.tombs && x in r.nodes ==> IsDeleted(g, r.nodes[x])
    requires n !in LiveKids(r.doc, ROOT) && s.ids.slide !in SlideIdsOf(r.deck)
    requires nodes.Keys <= r.nodes.Keys + IdSet(s)
    requires Based(r, a)
    ensures Rel(Rep(WriteSlide(g, nodes, n, s), Insert(r.deck, at, s), nodes), InsertPast(a, s))
  {
    hide WellFormed, LiveKids, WriteSlide, Within, SlideRel, PastRel, SlidesRel, NodesOk, Named, Insert;
    var q := Rep(WriteSlide(g, nodes, n, s), Insert(r.deck, at, s), nodes);
    var b := InsertPast(a, s);
    SeatedWritten(g, nodes, s, n, b.stale);
    WithinTwice(r.doc, g, q.doc, n);
    assert n != ROOT by { WithinTop(r.doc, g, n); }
    OldSlides(r, a, s, n, q, at);
    PastAfterInsert(r, a, s, n, q.doc, nodes);
    RootMore(r.doc, r.nodes, nodes, r.deck, at, s, n);
    ValidGrown(r.deck, at, s);
    InsertedIds(r.deck, at, s);
    assert KnownIds(nodes, q.deck);
  }

  lemma ValidGrown(deck: seq<Slide>, at: nat, s: Slide)
    requires (deck == [] || Valid(deck)) && at <= |deck| && Sound(s) && s.ids.slide !in SlideIdsOf(deck)
    ensures Valid(Insert(deck, at, s))
  {
    if deck == [] {
      assert Insert(deck, at, s) == [s];
    } else {
      ValidInserted(deck, at, s);
    }
  }

  lemma RootMore(d: Loro, nodes: Nodes, more: Nodes, deck: seq<Slide>, at: nat, s: Slide, n: TreeID)
    requires at <= |deck| && AllIn(SlideIdsOf(deck), nodes) && Extends(d, nodes, more) && NodeIs(more, s, n)
    ensures Named(more, SlideIdsOf(Insert(deck, at, s))) == Insert(Named(nodes, SlideIdsOf(deck)), at, n)
    ensures AllIn(SlideIdsOf(Insert(deck, at, s)), more)
  {
    var ids := SlideIdsOf(deck);
    assert SlideIdsOf(Insert(deck, at, s)) == Insert(ids, at, s.ids.slide);
    NamedMore(d, nodes, more, ids);
    NamedInsert(more, ids, at, s.ids.slide);
    assert forall x :: x in Insert(ids, at, s.ids.slide) ==> x in ids || x == s.ids.slide;
  }

  // ---------------------------------------------------------------- a new slide

  /** The ids a slide without any is given are new, and apart. */
  lemma FreshIds(deck: seq<Slide>, at: nat, page: Slide)
    requires at <= |deck| && page.ids.slide == 0 && page.ids.objects == []
    ensures var s := Inserted(deck, at, page);
            && Sound(s) && s.ids.slide !in Ids(deck) && s.ids.slide !in SlideIdsOf(deck)
            && (forall x :: x in s.ids.objects ==> x !in Ids(deck) && x != s.ids.slide)
  {
    InsertedIsApart(deck, at, page);
    MaxIdBounds(deck);
    var s := Numbered(deck, page);
    var all := Insert(deck, at, s);
    IdsOfOne(all, at);
    MaxIdBounds(all);
    var t := Inserted(deck, at, page);
    forall x | x in t.ids.objects
      ensures x != t.ids.slide
    {
      var k :| 0 <= k < |t.ids.objects| && t.ids.objects[k] == x;
      assert KeptIds(s) == [];
      assert x == NextId(all) + k;
    }
  }

  /** A new slide node between its neighbours. */
  lemma NodeNew(r: Rep, a: Past, s: Slide, at: nat, f: Loro, n: TreeID)
    requires at <= |r.deck|
    requires var (prev, next) := Neighbours(r.nodes, Insert(SlideIdsOf(r.deck), at, s.ids.slide), at);
             ROOT in r.doc.kids && (f, n) == Create(r.doc, ROOT, prev, next)
    requires s.ids.slide !in r.nodes && Based(r, a)
    ensures WellFormed(f) && TopLevel(f, n) && n in f.kids && n != ROOT && n !in LiveKids(r.doc, ROOT)
    ensures NodesOk(f, r.nodes[s.ids.slide := n]) && Extends(r.doc, r.nodes, r.nodes[s.ids.slide := n])
    ensures Within(r.doc, f, n) && KidsSub(r.doc, f) && LiveKids(f, n) == []
    ensures LiveKids(f, ROOT) == Insert(Named(r.nodes, SlideIdsOf(r.deck)), at, n)
  {
    hide WellFormed, LiveKids, Within, SlideRel, PastRel, SlidesRel, NodesOk, Named, Insert, Create, Neighbours, Beside, Grown;
    NeighboursAre(r.nodes, SlideIdsOf(r.deck), at, s.ids.slide);
    Created(r.doc, ROOT, at);
    NewTop(r.doc, f, n);
    LiveKidsHas(r.doc, ROOT);
    WithinGrown(r.doc, f, n, ROOT, n);
    NewNode(r, f, n, ROOT, s.ids.slide);
  }

  lemma NewTop(d: Loro, f: Loro, n: TreeID)
    requires Grown(d, f, n, ROOT) && WellFormed(d)
    ensures n !in d.kids && WellFormed(f) && TopLevel(d, n) && TopLevel(f, n) && n in f.kids && n != ROOT && KidsSub(d, f)
    ensures LiveKids(f, n) == [] && n !in d.parent
  {
  }

  /** The node of a slide put in, once its objects stand under it in order. */
  lemma NowSeated(g: Loro, e: Loro, nodes: Nodes, s: Slide, n: TreeID)
    requires WellFormed(g) && TopLevel(g, n) && n in g.kids && NodeIs(nodes, s, n) && AllIn(s.ids.objects, nodes) && NodesOk(g, nodes)
    requires Sound(s) && Shown(g, nodes, s.objects, s.ids.objects)
    requires forall m :: m in LiveKids(g, n) <==> m in Named(nodes, s.ids.objects)
    requires e == Order(g, n, Named(nodes, s.ids.objects))
    ensures Seated(e, nodes, s, n) && OnlyOrder(g, e, n) && LiveSet(e) == LiveSet(g)
  {
    hide WellFormed, LiveKids, Order, ReadObject, NodesOk;
    var order := Named(nodes, s.ids.objects);
    NamedApart(g, nodes, s.ids.objects);
    Ordered(g, n, order);
    OnlyOrderFacts(g, e, nodes, n);
    forall k | 0 <= k < |s.ids.objects| && k < |s.objects| && s.ids.objects[k] in nodes
      ensures !IsDeleted(e, nodes[s.ids.objects[k]]) && ReadObject(e, nodes[s.ids.objects[k]]) == Some(s.objects[k])
    {
      SameShown(g, e, nodes[s.ids.objects[k]], s.objects[k]);
    }
  }

  lemma OnlyOrderFacts(g: Loro, e: Loro, nodes: Nodes, n: TreeID)
    requires OnlyOrder(g, e, n) && TopLevel(g, n) && NodesOk(g, nodes) && n in g.kids
    ensures TopLevel(e, n) && NodesOk(e, nodes) && n in e.kids && Within(g, e, n) && KidsSub(g, e)
    ensures forall m, k :: Get(e, m, k) == Get(g, m, k)
  {
  }

  lemma NamedApart(d: Loro, nodes: Nodes, ids: seq<nat>)
    requires NodesOk(d, nodes) && AllIn(ids, nodes) && NoDup(ids)
    ensures NoDup(Named(nodes, ids))
  {
    forall i, j | 0 <= i < j < |ids|
      ensures Named(nodes, ids)[i] != Named(nodes, ids)[j]
    {
      assert ids[i] in ids && ids[j] in ids;
    }
  }

  lemma InsertSlideNew(r: Rep, a: Past, at: nat, page: Slide, s: Slide)
    requires at <= |r.deck| && page.ids.slide == 0 && page.ids.objects == [] && s == Inserted(r.deck, at, page) && LiveBuilds(s)
    requires Rel(r, a)
    ensures Rel(Write(r.(deck := Insert(r.deck, at, s)), InsertSlide(at, page)), InsertPast(a, s))
  {
    hide WellFormed, LiveKids, Within, SlideRel, PastRel, SlidesRel, NodesOk, Insert, Create, Neighbours, WriteSlide, Order, Seated, HouseObjects, Named, RootRel;
    hide HouseObjects, Named;
    RelBased(r, a);
    FreshIds(r.deck, at, page);
    RootKnown(r.doc);
    var deck := Insert(r.deck, at, s);
    InsertedAt(r.deck, at, s);
    var (prev, next) := Neighbours(r.nodes, SlideIdsOf(deck), at);
    var (f, n) := Create(r.doc, ROOT, prev, next);
    NodeNew(r, a, s, at, f, n);
    var q := Rep(f, deck, r.nodes[s.ids.slide := n]);
    HouseNew(q, n, s.objects, s.ids.objects);
    var (t, order) := HouseObjects(q, n, s.objects, s.ids.objects);
    AddedFacts(f, t.doc, n, order);
    AllKnown(t.nodes, s.ids.objects);
    var g := Order(t.doc, n, order);
    NowSeated(t.doc, g, t.nodes, s, n);
    assert Write(r.(deck := deck), InsertSlide(at, page)) == Rep(WriteSlide(g, t.nodes, n, s), deck, t.nodes);
    SeatedWithin(r.doc, f, t.doc, g, t.nodes, n);
    RootSame(t.doc, g, n);
    ExtendsTwice(r.doc, f, r.nodes, q.nodes, t.nodes);
    SlideIn(r, a, s, n, g, t.nodes, at);
  }

  lemma AllKnown(nodes: Nodes, ids: seq<nat>)
    requires (set x | x in ids) <= nodes.Keys
    ensures AllIn(ids, nodes)
  {
    forall x | x in ids
      ensures x in nodes
    {
      assert x in (set y | y in ids);
    }
  }

  lemma InsertedAt(deck: seq<Slide>, at: nat, s: Slide)
    requires at <= |deck|
    ensures |Insert(deck, at, s)| == |deck| + 1 && Insert(deck, at, s)[at] == s
    ensures SlideIdsOf(Insert(deck, at, s)) == Insert(SlideIdsOf(deck), at, s.ids.slide)
  {
  }

  lemma AddedFacts(d: Loro, e: Loro, p: TreeID, more: seq<TreeID>)
    requires Added(d, e, p, more) && p in d.kids
    ensures p in e.kids && Within(d, e, p) && KidsSub(d, e) && LiveKids(e, p) == LiveKids(d, p) + more
    ensures LiveKids(e, ROOT) == LiveKids(d, ROOT)
    ensures LiveKids(d, p) == [] ==> LiveKids(e, p) == more
  {
    assert LiveKids(d, p) == [] ==> LiveKids(d, p) + more == more;
  }

  lemma SeatedWithin(d: Loro, f: Loro, h: Loro, g: Loro, nodes: Nodes, n: TreeID)
    requires Within(d, f, n) && Within(f, h, n) && OnlyOrder(h, g, n) && TopLevel(h, n) && KidsSub(d, f) && KidsSub(f, h)
    ensures Within(d, g, n) && KidsSub(d, g)
  {
    hide Within;
    WithinTwice(d, f, h, n);
    WithinOrder(h, g, n, n);
    WithinTwice(d, h, g, n);
    OnlyOrderSub(h, g, n);
  }

  lemma OnlyOrderSub(h: Loro, g: Loro, n: TreeID)
    requires OnlyOrder(h, g, n)
    ensures KidsSub(h, g)
  {
  }

  lemma TombKnown(r: Rep, a: Past, slide: nat, x: nat)
    requires Rel(r, a) && (slide, x) in a.tombs
    ensures TombRel(r.doc, r.nodes, slide, x)
  {
    hide SlidesRel, RootRel, WellFormed, TombRel;
  }

  // ---------------------------------------------------------------- a slide back from its tombstone

  /** A slide the document keeps deleted, with its objects. */
  ghost predicate InGrave(a: Past, page: Slide) {
    page.ids.slide in a.graves && a.graves[page.ids.slide] == ObjectSet(page)
  }

  lemma GraveFacts(r: Rep, a: Past, page: Slide, n: TreeID)
    requires Rel(r, a) && InGrave(a, page) && NodeIs(r.nodes, page, n)
    ensures n in r.doc.kids && n in r.doc.parent && r.doc.parent[n] == ROOT && IsDeleted(r.doc, n) && TopLevel(r.doc, n)
    ensures n !in LiveKids(r.doc, ROOT) && page.ids.slide !in SlideIdsOf(r.deck)
    ensures InSet(LiveKids(r.doc, n), r.nodes, ObjectSet(page))
  {
    hide SlidesRel, LiveKids, WellFormed, InSet, IsDeleted, Valid, KnownIds, RootRel, Named;
    GraveKnown(r, a, page);
    NotShown(r.doc, r.nodes, r.deck, page.ids.slide, n);
  }

  lemma NotShown(d: Loro, nodes: Nodes, deck: seq<Slide>, slide: nat, n: TreeID)
    requires RootRel(d, nodes, deck) && slide in nodes && nodes[slide] == n && IsDeleted(d, n)
    ensures n !in LiveKids(d, ROOT) && slide !in SlideIdsOf(deck)
  {
    hide LiveKids, IsDeleted, Named;
    LiveKidsHas(d, ROOT);
    assert n !in LiveSet(d);
    NamedHas(nodes, SlideIdsOf(deck));
  }

  /** Its objects are the live nodes under it. */
  lemma GraveObjects(r: Rep, a: Past, page: Slide, n: TreeID)
    requires Rel(r, a) && NodeIs(r.nodes, page, n) && InSet(LiveKids(r.doc, n), r.nodes, ObjectSet(page))
    ensures AllIn(page.ids.objects, r.nodes) && InOrder(r.doc, r.nodes, n, page.ids.objects)
    ensures forall m :: m in LiveKids(r.doc, n) <==> m in Named(r.nodes, page.ids.objects)
  {
    hide SlidesRel, LiveKids, WellFormed, Named, RootRel, PastRel;
    var objects := ObjectSet(page);
    forall x | x in page.ids.objects
      ensures x in r.nodes && r.nodes[x] in r.doc.kids && r.nodes[x] in r.doc.parent && r.doc.parent[r.nodes[x]] == n
      ensures r.nodes[x] in LiveKids(r.doc, n)
    {
      assert x in objects;
      LiveKidParent(r.doc, n, r.nodes[x]);
    }
    NamedHas(r.nodes, page.ids.objects);
    forall m | m in LiveKids(r.doc, n)
      ensures m in Named(r.nodes, page.ids.objects)
    {
      var x :| x in objects && x in r.nodes && r.nodes[x] == m;
    }
  }

  /** Clearing tombstones already clear changes no live children. */
  lemma BackLive(f: Loro, h: Loro, q: TreeID, some: seq<TreeID>)
    requires OnlyThese(f, h, some) && forall m :: m in some ==> !IsDeleted(f, m) && !IsDeleted(h, m)
    ensures LiveKids(h, q) == LiveKids(f, q)
  {
    assert forall m :: IsDeleted(h, m) <==> IsDeleted(f, m);
    SameLive(f, h, q);
  }

  lemma OnlyTheseWithin(f: Loro, h: Loro, some: seq<TreeID>, n: TreeID)
    requires OnlyThese(f, h, some) && TopLevel(f, n)
    requires forall m :: m in some ==> m in f.parent && f.parent[m] == n
    ensures Within(f, h, n) && KidsSub(f, h) && TopLevel(h, n)
  {
  }

  /** The slide's node, alive again in its place, with its objects as they were. */
  lemma NodeBack(r: Rep, a: Past, page: Slide, at: nat, f: Loro, n: TreeID)
    requires at <= |r.deck| && NodeIs(r.nodes, page, n)
    requires var (prev, next) := Neighbours(r.nodes, Insert(SlideIdsOf(r.deck), at, page.ids.slide), at);
             f == Place(SetDeleted(r.doc, n, false), n, ROOT, prev, next)
    requires Rel(r, a) && InGrave(a, page)
    ensures WellFormed(f) && TopLevel(f, n) && n in f.kids && f.parent == r.doc.parent && f.kids.Keys == r.doc.kids.Keys
    ensures Within(r.doc, f, n) && KidsSub(r.doc, f)
    ensures forall x :: x != n ==> (IsDeleted(f, x) <==> IsDeleted(r.doc, x))
    ensures LiveKids(f, n) == LiveKids(r.doc, n)
    ensures LiveKids(f, ROOT) == Insert(Named(r.nodes, SlideIdsOf(r.deck)), at, n)
  {
    hide WellFormed, LiveKids, Within, SlideRel, PastRel, SlidesRel, NodesOk, Named, Insert, Place, SetDeleted, Neighbours, InSet;
    GraveFacts(r, a, page, n);
    RootKnown(r.doc);
    NodeRevived(r.doc, r.nodes, SlideIdsOf(r.deck), at, page.ids.slide, ROOT, n, f);
    RevivedElsewhere(r.doc, n, ROOT, n, f);
    KidlessOwn(r.doc, n);
    KeptTop(r.doc, f, n);
    SameLiveBut(r.doc, f, n);
  }

  lemma SameLiveBut(d: Loro, f: Loro, n: TreeID)
    requires Children(f, n) == Children(d, n) && n !in Children(d, n) && KidsSub(d, f)
    requires forall x :: x != n ==> (IsDeleted(f, x) <==> IsDeleted(d, x))
    requires forall x :: x in f.kids ==> x in d.kids
    ensures LiveKids(f, n) == LiveKids(d, n)
  {
    SameLive(d, f, n);
  }

  /** Its objects, written again, are as live as they were. */
  lemma ObjectsBack(r: Rep, a: Past, page: Slide, f: Loro, n: TreeID, h: Loro)
    requires Sound(page) && NodeIs(r.nodes, page, n)
    requires WellFormed(f) && TopLevel(f, n) && f.parent == r.doc.parent && f.kids.Keys == r.doc.kids.Keys
    requires forall x :: x != n ==> (IsDeleted(f, x) <==> IsDeleted(r.doc, x))
    requires LiveKids(f, n) == LiveKids(r.doc, n)
    requires OnlyThese(f, h, Named(r.nodes, page.ids.objects)) && Shown(h, r.nodes, page.objects, page.ids.objects)
    requires Rel(r, a) && InGrave(a, page)
    ensures forall q :: LiveKids(h, q) == LiveKids(f, q)
    ensures Within(f, h, n) && KidsSub(f, h) && TopLevel(h, n)
    ensures forall x :: IsDeleted(h, x) <==> IsDeleted(f, x)
  {
    hide WellFormed, LiveKids, Within, SlideRel, PastRel, SlidesRel, NodesOk, InSet, TopLevel, IsDeleted, ReadObject, RootRel, KnownIds, Valid;
    GraveFacts(r, a, page, n);
    GraveObjects(r, a, page, n);
    var order := Named(r.nodes, page.ids.objects);
    forall m | m in order
      ensures !IsDeleted(f, m) && !IsDeleted(h, m) && m in f.parent && f.parent[m] == n
    {
      var k :| 0 <= k < |order| && order[k] == m;
      assert page.ids.objects[k] in page.ids.objects;
      LiveKidParent(f, n, m);
    }
    OnlyTheseWithin(f, h, order, n);
    forall q
      ensures LiveKids(h, q) == LiveKids(f, q)
    {
      BackLive(f, h, q, order);
    }
    forall x
      ensures IsDeleted(h, x) <==> IsDeleted(f, x)
    {
      if x !in order {
        SameDeleted(f, h, order, x);
      }
    }
  }

  lemma SameDeleted(f: Loro, h: Loro, some: seq<TreeID>, x: TreeID)
    requires OnlyThese(f, h, some) && x !in some
    ensures IsDeleted(h, x) <==> IsDeleted(f, x)
  {
  }

  lemma InsertSlideBack(r: Rep, a: Past, at: nat, page: Slide)
    requires at <= |r.deck| && Sound(page) && LiveBuilds(page)
    requires Rel(r, a) && InGrave(a, page)
    ensures Rel(Write(r.(deck := Insert(r.deck, at, page)), InsertSlide(at, page)), InsertPast(a, page))
  {
    hide WellFormed, LiveKids, Within, SlideRel, PastRel, SlidesRel, NodesOk, Insert, Place, SetDeleted, Neighbours, WriteSlide, Order;
    hide HouseObjects, Named, Seated, InSet, IsDeleted, ReadObject, TopLevel, Rel, Based, InGrave, OnlyThese, Shown, OnlyOrder;
    RelBased(r, a);
    var deck := Insert(r.deck, at, page);
    InsertedAt(r.deck, at, page);
    GraveKnown(r, a, page);
    var n := r.nodes[page.ids.slide];
    GraveFacts(r, a, page, n);
    GraveObjects(r, a, page, n);
    var (prev, next) := Neighbours(r.nodes, SlideIdsOf(deck), at);
    var f := Place(SetDeleted(r.doc, n, false), n, ROOT, prev, next);
    NodeBack(r, a, page, at, f, n);
    var q := Rep(f, deck, r.nodes);
    NodesSame(r, a);
    HouseBack(q, n, page.objects, page.ids.objects);
    var (t, order) := HouseObjects(q, n, page.objects, page.ids.objects);
    ObjectsBack(r, a, page, f, n, t.doc);
    NodesStay(r, t);
    var g := Order(t.doc, n, order);
    NowSeated(t.doc, g, r.nodes, page, n);
    assert Write(r.(deck := deck), InsertSlide(at, page)) == Rep(WriteSlide(g, r.nodes, n, page), deck, r.nodes);
    SeatedWithin(r.doc, f, t.doc, g, r.nodes, n);
    NotRoot(t.doc, n);
    RootSame(t.doc, g, n);
    StillDead(t.doc, g, n);
    forall x | (page.ids.slide, x) in a.tombs && x in r.nodes
      ensures IsDeleted(g, r.nodes[x])
    {
      StillTomb(r, a, page.ids.slide, x, n);
    }
    SlideIn(r, a, page, n, g, r.nodes, at);
  }

  lemma NotRoot(d: Loro, n: TreeID)
    requires TopLevel(d, n)
    ensures n != ROOT
  {
  }

  lemma StillTomb(r: Rep, a: Past, slide: nat, x: nat, n: TreeID)
    requires Rel(r, a) && (slide, x) in a.tombs && slide in r.nodes && r.nodes[slide] == n && TopLevel(r.doc, n)
    ensures x in r.nodes && r.nodes[x] != n && IsDeleted(r.doc, r.nodes[x])
  {
    hide SlidesRel, RootRel, LiveKids, SlideRel, WellFormed, IsDeleted;
    TombKnown(r, a, slide, x);
  }

  lemma StillDead(h: Loro, g: Loro, n: TreeID)
    requires OnlyOrder(h, g, n)
    ensures forall x :: IsDeleted(g, x) <==> IsDeleted(h, x)
  {
  }

  lemma NodesSame(r: Rep, a: Past)
    requires Rel(r, a)
    ensures Injective(r.nodes) && NodesOk(r.doc, r.nodes)
  {
  }

  lemma GraveKnown(r: Rep, a: Past, page: Slide)
    requires Rel(r, a) && InGrave(a, page)
    ensures GraveRel(r.doc, r.nodes, page.ids.slide, ObjectSet(page))
  {
    hide SlidesRel, RootRel, GraveRel, WellFormed, NodesOk, Valid;
  }
}
