/** The replica as the object it is: a document, a deck and a table of nodes
    that its methods update. */
module SharedDecks {
  import opened Engine
  import opened Sequences
  import opened Ops
  import opened Numbering
  import opened Tree
  import opened Replicas
  import opened TreeLaws
  import opened RegisterLaws

  /** `id`s by their node. */
  ghost predicate Indexed(idOf: map<TreeID, nat>, nodes: seq<TreeID>, ids: seq<nat>) {
    && |nodes| == |ids|
    && forall n :: (n in idOf <==> n in nodes) && (n in nodes ==> idOf[n] == ids[Position(nodes, n).value])
  }

  lemma PositionMore(nodes: seq<TreeID>, n: TreeID, m: TreeID)
    requires n !in nodes
    ensures Position(nodes + [n], m) == if m in nodes then Position(nodes, m) else if m == n then Some(|nodes|) else None
  {
    if m in nodes {
      var at := Position(nodes, m).value;
      assert (nodes + [n])[..at] == nodes[..at];
      PositionAt(nodes + [n], at);
    } else if m == n {
      assert (nodes + [n])[..|nodes|] == nodes;
      PositionAt(nodes + [n], |nodes|);
    }
  }

  lemma IndexedMore(idOf: map<TreeID, nat>, nodes: seq<TreeID>, ids: seq<nat>, n: TreeID, id: nat)
    requires Indexed(idOf, nodes, ids) && n !in nodes
    ensures Indexed(idOf[n := id], nodes + [n], ids + [id])
  {
    forall m
      ensures m in nodes + [n] ==> idOf[n := id][m] == (ids + [id])[Position(nodes + [n], m).value]
    {
      PositionMore(nodes, n, m);
    }
  }

  /** The stored builds of objects in `idOf`, named by their ids. */
  method NameBuilds(stored: seq<StoredBuild>, idOf: map<TreeID, nat>, ghost nodes: seq<TreeID>, ghost ids: seq<nat>)
    returns (builds: seq<Build>)
    requires Indexed(idOf, nodes, ids)
    ensures builds == NamedBuilds(stored, nodes, ids)
  {
    builds := [];
    var k := 0;
    while k < |stored|
      invariant 0 <= k <= |stored|
      invariant builds + NamedBuilds(stored[k..], nodes, ids) == NamedBuilds(stored, nodes, ids)
    {
      assert stored[k..][0] == stored[k] && stored[k..][1..] == stored[k + 1..];
      if stored[k].node in idOf {
        var b := Build(idOf[stored[k].node], stored[k].effect, stored[k].out);
        assert builds + ([b] + NamedBuilds(stored[k + 1..], nodes, ids)) == builds + [b] + NamedBuilds(stored[k + 1..], nodes, ids);
        builds := builds + [b];
      }
      k := k + 1;
    }
  }

  /** A slide read from its node: live children that make objects, numbered
      from `next + 1`; then the builds of those. */
  method ReadOne(d: Loro, n: TreeID, next: nat) returns (s: Slide, kids: seq<TreeID>)
    requires WellFormed(d) && n in d.kids
    ensures (s, [n] + kids) == ReadSlide(d, n, next)
  {
    hide ReadObject, ReadProps, ReadBuilds, WellFormed, LiveSet;
    var (props, hidden) := ReadProps(d, n);
    var children := Children(d, n);
    ghost var live := LiveSet(d);
    var objects: seq<SlideObject> := [];
    var ids: seq<nat> := [];
    var idOf: map<TreeID, nat> := map[];
    kids := [];
    var k := 0;
    ChildrenKnown(d, n);
    assert children[0..] == children;
    ghost var whole := ReadKids(d, Pick(children, live));
    assert [] + whole.0 == whole.0 && [] + whole.1 == whole.1;
    while k < |children|
      invariant 0 <= k <= |children|
      invariant |kids| == |objects| && ids == Fresh(next + 1, |kids|) && Indexed(idOf, kids, ids)
      invariant forall m :: m in kids ==> m in children[..k]
      invariant var (a, b) := ReadKids(d, Pick(children[k..], live)); (kids + a, objects + b) == ReadKids(d, Pick(children, live))
    {
      var o := children[k];
      assert children[k..][0] == o && children[k..][1..] == children[k + 1..];
      assert o in children && o in live <==> !IsDeleted(d, o) by { LiveKnown(d, o); }
      assert o !in children[..k];
      assert children[..k + 1] == children[..k] + [o];
      if !IsDeleted(d, o) {
        var what := ReadObject(d, o);
        ReadKidsStep(d, o, Pick(children[k + 1..], live), kids, objects);
        if what.Some? {
          IndexedMore(idOf, kids, ids, o, next + 1 + |kids|);
          idOf := idOf[o := next + 1 + |kids|];
          ids := ids + [next + 1 + |kids|];
          objects := objects + [what.value];
          kids := kids + [o];
        }
      }
      k := k + 1;
    }
    assert Pick(children[k..], live) == [];
    assert kids + [] == kids && objects + [] == objects;
    var builds := NameBuilds(ReadBuilds(d, n), idOf, kids, ids);
    s := Slide(props.(builds := builds), hidden, objects, SlideIds(next, ids, []));
  }

  lemma ChildrenKnown(d: Loro, n: TreeID)
    requires WellFormed(d) && n in d.kids
    ensures NoDup(Children(d, n)) && forall m :: m in Children(d, n) ==> m in d.kids
  {
  }

  lemma LiveKnown(d: Loro, o: TreeID)
    requires o in d.kids
    ensures o in LiveSet(d) <==> !IsDeleted(d, o)
  {
  }

  lemma ReadKidsStep(d: Loro, o: TreeID, rest: seq<TreeID>, kids: seq<TreeID>, objects: seq<SlideObject>)
    ensures var (a, b) := ReadKids(d, [o] + rest);
            var (p, q) := ReadKids(d, rest);
            var what := ReadObject(d, o);
            (kids + a, objects + b) == if what.Some? then (kids + [o] + p, objects + [what.value] + q) else (kids + p, objects + q)
  {
    hide ReadObject;
    assert ([o] + rest)[0] == o && ([o] + rest)[1..] == rest;
    var (p, q) := ReadKids(d, rest);
    var what := ReadObject(d, o);
    if what.Some? {
      assert kids + ([o] + p) == kids + [o] + p && objects + ([what.value] + q) == objects + [what.value] + q;
    }
  }

  class SharedDeck {
    var doc: Loro
    var deck: seq<Slide>
    var nodes: Nodes

    function Value(): Rep
      reads this
    {
      Rep(doc, deck, nodes)
    }

    /** Start a shared document from `slides`, numbered if they are not. */
    constructor (peer: nat, slides: seq<Slide>)
      ensures Value() == Start(peer, slides)
    {
      hide Create, WriteObject, WriteSlide, PutObjects;
      doc := Blank(peer);
      nodes := map[];
      deck := EnsureIds(slides);
      new;
      var i := 0;
      assert deck[0..] == deck;
      while i < |deck|
        invariant 0 <= i <= |deck| && deck == EnsureIds(slides) && ROOT in doc.kids
        invariant Started(doc, nodes, deck[i..]) == Started(Blank(peer), map[], deck)
      {
        var s := deck[i];
        assert deck[i..][0] == s && deck[i..][1..] == deck[i + 1..];
        var (f, n) := Create(doc, ROOT, None, None);
        CreateKeeps(doc, ROOT);
        doc, nodes := f, nodes[s.ids.slide := n];
        PutChildren(n, s.objects, s.ids.objects);
        SlideStaysPut(doc, nodes, n, s);
        doc := WriteSlide(doc, nodes, n, s);
        i := i + 1;
      }
    }

    /** A new node under `n` for each object. */
    method PutChildren(n: TreeID, objects: seq<SlideObject>, ids: seq<nat>)
      requires n in doc.kids
      modifies this`doc, this`nodes
      ensures (doc, nodes) == PutObjects(old(doc), old(nodes), n, objects, ids)
      ensures forall q :: q in old(doc).kids ==> q in doc.kids
    {
      hide Create, WriteObject;
      var k := 0;
      assert objects[0..] == objects && ids[0..] == ids;
      while k < |objects| && k < |ids|
        invariant 0 <= k <= |objects| && k <= |ids| && n in doc.kids
        invariant forall q :: q in old(doc).kids ==> q in doc.kids
        invariant PutObjects(doc, nodes, n, objects[k..], ids[k..]) == PutObjects(old(doc), old(nodes), n, objects, ids)
      {
        assert objects[k..][1..] == objects[k + 1..] && ids[k..][1..] == ids[k + 1..];
        var (f, o) := Create(doc, n, None, None);
        KidsStay(doc, n, objects[k]);
        doc, nodes := WriteObject(f, o, objects[k]), nodes[ids[k] := o];
        k := k + 1;
      }
    }

    /** Put `order`'s nodes in that order under `p`, moving as few as it takes. */
    method PutInOrder(p: TreeID, order: seq<TreeID>)
      modifies this`doc
      ensures doc == Order(old(doc), p, order)
    {
      hide Place;
      var now := Pick(Children(doc, p), set n | n in order);
      if now == order || order == [] {
        return;
      }
      var j := 0;
      while j < |order|
        invariant 0 <= j <= |order|
        invariant j == 0 ==> doc == old(doc)
        invariant j > 0 ==> OrderFrom(doc, p, order, j) == Order(old(doc), p, order)
      {
        if j > 0 {
          doc := Place(doc, order[j], p, Some(order[j - 1]), None);
        } else {
          doc := Place(doc, order[j], p, None, if now != [] && now[0] != order[j] then Some(now[0]) else None);
        }
        j := j + 1;
      }
    }

    /** Write an inserted slide: its node, its objects' nodes, their order, and
        its properties. */
    method WriteInserted(at: nat, page: Slide)
      requires at < |deck|
      modifies this`doc, this`nodes
      ensures Value() == Write(old(Value()), InsertSlide(at, page))
    {
      hide Place, Create, WriteObject, WriteSlide, SetDeleted, Order, Neighbours, Housed;
      var s := deck[at];
      var (prev, next) := Neighbours(nodes, SlideIdsOf(deck), at);
      HousedDeck(Value(), s.ids.slide, page.ids.slide != 0, ROOT, prev, next);
      var (q, n) := Housed(Value(), s.ids.slide, page.ids.slide != 0, ROOT, prev, next);
      doc, nodes := q.doc, q.nodes;
      assert q.deck == deck;
      var order: seq<TreeID> := [];
      var k := 0;
      ghost var all := HouseObjects(q, n, s.objects, s.ids.objects);
      assert s.objects[0..] == s.objects && s.ids.objects[0..] == s.ids.objects;
      assert [] + all.1 == all.1;
      while k < |s.objects| && k < |s.ids.objects|
        invariant 0 <= k <= |s.objects| && k <= |s.ids.objects| && deck == q.deck == old(deck)
        invariant var rest := HouseObjects(Value(), n, s.objects[k..], s.ids.objects[k..]); (rest.0, order + rest.1) == all
      {
        assert s.objects[k..][1..] == s.objects[k + 1..] && s.ids.objects[k..][1..] == s.ids.objects[k + 1..];
        var id := s.ids.objects[k];
        var o: TreeID;
        if id in nodes {
          o := nodes[id];
          doc := SetDeleted(doc, o, false);
        } else {
          HousedDeck(Value(), id, false, n, None, None);
          var (t, m) := Housed(Value(), id, false, n, None, None);
          doc, nodes, o := t.doc, t.nodes, m;
        }
        doc := WriteObject(doc, o, s.objects[k]);
        ghost var rest := HouseObjects(Value(), n, s.objects[k + 1..], s.ids.objects[k + 1..]);
        assert order + ([o] + rest.1) == order + [o] + rest.1;
        order := order + [o];
        k := k + 1;
      }
      assert order + [] == order;
      PutInOrder(n, order);
      doc := WriteSlide(doc, nodes, n, s);
    }

    /** Record a group just applied to this replica's deck: first what is
        shown comes back to life, then op by op. */
    method Record(ops: seq<Op>) returns (ok: bool)
      modifies this
      ensures (Value(), ok) == RecordGroup(old(Value()), ops)
    {
      hide Apply, Write, SetDeleted;
      var i := 0;
      assert deck[0..] == deck;
      while i < |deck|
        invariant 0 <= i <= |deck| && deck == old(deck) && nodes == old(nodes)
        invariant ReviveShown(doc, nodes, deck[i..]) == ReviveShown(old(doc), nodes, deck)
      {
        assert deck[i..][1..] == deck[i + 1..];
        var id := deck[i].ids.slide;
        if id in nodes {
          doc := SetDeleted(doc, nodes[id], false);
        }
        i := i + 1;
      }
      ghost var start := Value();
      var j := 0;
      assert ops[0..] == ops;
      while j < |ops|
        invariant 0 <= j <= |ops|
        invariant RecordOps(Value(), ops[j..]) == RecordOps(start, ops)
      {
        assert ops[j..][0] == ops[j] && ops[j..][1..] == ops[j + 1..];
        var o := Apply(deck, ops[j]);
        deck := o.slides;
        if o.reply.Err? {
          return false;
        }
        if o.reply.value != [] {
          WriteOp(ops[j]);
        }
        j := j + 1;
      }
      ok := true;
    }

    /** Write an op just applied to the deck into the tree. */
    method WriteOp(op: Op)
      modifies this`doc, this`nodes
      ensures Value() == Write(old(Value()), op)
    {
      hide Place, Create, WriteObject, WriteSlide, SetDeleted, Order;
      match op {
        case InsertSlide(at, page) =>
          if at < |deck| {
            WriteInserted(at, page);
          }
        case DeleteSlide(slide) =>
          if slide in nodes {
            doc := SetDeleted(doc, nodes[slide], true);
          }
        case DeleteObject(_, id) =>
          if id in nodes {
            doc := SetDeleted(doc, nodes[id], true);
          }
        case MoveSlide(slide, to) =>
          var (prev, next) := Neighbours(nodes, SlideIdsOf(deck), to);
          if slide in nodes {
            doc := Place(doc, nodes[slide], ROOT, prev, next);
          }
        case SetMaster(_, _) =>
        case _ =>
          var i := SlidePos(deck, op.slide);
          if i.Some? && op.slide in nodes {
            WriteEdit(op, deck[i.value], nodes[op.slide]);
          }
      }
    }

    /** Write an op on slide `s`, whose node is `p`. */
    method WriteEdit(op: Op, s: Slide, p: TreeID)
      requires op.SetSlide? || op.InsertObject? || op.MoveObject? || op.SetObject?
      modifies this`doc, this`nodes
      ensures Value() == WriteOnSlide(old(Value()), op, s, p)
    {
      hide Place, Create, WriteObject, WriteSlide, SetDeleted;
      match op {
        case SetSlide(_, _) =>
          doc := WriteSlide(doc, nodes, p, s);
        case InsertObject(_, at, id, _) =>
          var (prev, next) := Neighbours(nodes, s.ids.objects, at);
          var n: TreeID := p;
          if id in nodes {
            n := nodes[id];
            doc := SetDeleted(doc, n, false);
            doc := Place(doc, n, p, prev, next);
          } else if p in doc.kids {
            var (e, m) := Create(doc, p, prev, next);
            doc, nodes, n := e, nodes[id := m], m;
          }
          if at < |s.objects| {
            doc := WriteObject(doc, n, s.objects[at]);
          }
        case MoveObject(_, id, to) =>
          var (prev, next) := Neighbours(nodes, s.ids.objects, to);
          if id in nodes {
            doc := Place(doc, nodes[id], p, prev, next);
          }
        case SetObject(_, id, _) =>
          var at := IndexOf(s.ids.objects, id);
          if id in nodes && at.Some? && at.value < |s.objects| {
            doc := WriteObject(doc, nodes[id], s.objects[at.value]);
          }
      }
    }

    /** Read the deck the document holds; it becomes this replica's. */
    method Rebuild() returns (ok: bool)
      requires WellFormed(doc)
      modifies this`deck, this`nodes
      ensures ok <==> Children(doc, ROOT) != []
      ensures ok ==> Value() == RebuiltRep(doc)
      ensures !ok ==> Value() == old(Value())
    {
      hide ReadSlide, WellFormed, LiveKids, ReadDeck, ReadNodes;
      ShownThere(doc);
      var live := LiveChildren(doc, ROOT);
      var all := Children(doc, ROOT);
      if live == [] && all != [] {
        live := [all[0]];
      }
      ok := live != [];
      if !ok {
        return;
      }
      var slides: seq<Slide> := [];
      var ids: Nodes := map[];
      var next: nat := 1;
      var i := 0;
      assert live[0..] == live;
      assert [] + ReadDeck(doc, live, 1) == ReadDeck(doc, live, 1);
      assert ReadNodes(doc, live, 1) + ids == ReadNodes(doc, live, 1);
      while i < |live|
        invariant 0 <= i <= |live| && WellFormed(doc)
        invariant forall x :: x in ids ==> x < next
        invariant slides + ReadDeck(doc, live[i..], next) == ReadDeck(doc, live, 1)
        invariant ReadNodes(doc, live[i..], next) + ids == ReadNodes(doc, live, 1)
      {
        var n := live[i];
        assert n in live && live[i..][0] == n && live[i..][1..] == live[i + 1..];
        var s, kids := ReadOne(doc, n, next);
        var some := [n] + kids;
        DeckStep(doc, live[i..], next, s, some, slides, ids);
        slides := slides + [s];
        ids := ids + Counted(some, next);
        next := next + |some|;
        i := i + 1;
      }
      NothingLeft(doc, live[i..], next, slides, ids);
      deck, nodes := slides, ids;
    }
  }

  lemma HousedDeck(r: Rep, id: nat, known: bool, p: TreeID, prev: Option<TreeID>, next: Option<TreeID>)
    ensures Housed(r, id, known, p, prev, next).0.deck == r.deck
  {
  }

  lemma CreateKeeps(d: Loro, p: TreeID)
    requires p in d.kids
    ensures var (f, n) := Create(d, p, None, None); n in f.kids && forall q :: q in d.kids ==> q in f.kids
  {
  }

  lemma KidsStay(d: Loro, p: TreeID, o: SlideObject)
    requires p in d.kids
    ensures var (f, n) := Create(d, p, None, None); forall q :: q in d.kids ==> q in WriteObject(f, n, o).kids
  {
    hide WriteObject, Create, OnlyRegsOf, ReadObject;
    var (f, n) := Create(d, p, None, None);
    CreateKeeps(d, p);
    ObjectReadsBack(f, n, o);
    SameTree(f, WriteObject(f, n, o), n);
  }

  lemma SameTree(d: Loro, e: Loro, n: TreeID)
    requires OnlyRegsOf(d, e, n)
    ensures e.kids == d.kids
  {
  }

  lemma SlideStaysPut(d: Loro, nodes: Nodes, n: TreeID, s: Slide)
    ensures WriteSlide(d, nodes, n, s).kids == d.kids
  {
    hide WriteSlide, OnlyRegsOf, ReadProps, ReadBuilds;
    SlideReadsBack(d, nodes, n, s);
    SameTree(d, WriteSlide(d, nodes, n, s), n);
  }

  method LiveChildren(d: Loro, p: TreeID) returns (live: seq<TreeID>)
    requires WellFormed(d) && p in d.kids
    ensures live == LiveKids(d, p)
  {
    hide WellFormed, LiveSet, IsDeleted;
    var kids := Children(d, p);
    ChildrenKnown(d, p);
    live := [];
    var k := 0;
    assert kids[0..] == kids;
    while k < |kids|
      invariant 0 <= k <= |kids|
      invariant live + Pick(kids[k..], LiveSet(d)) == Pick(kids, LiveSet(d))
    {
      assert kids[k..][0] == kids[k] && kids[k..][1..] == kids[k + 1..];
      LiveKnown(d, kids[k]);
      if !IsDeleted(d, kids[k]) {
        assert live + ([kids[k]] + Pick(kids[k + 1..], LiveSet(d))) == live + [kids[k]] + Pick(kids[k + 1..], LiveSet(d));
        live := live + [kids[k]];
      }
      k := k + 1;
    }
  }

  lemma ShownThere(d: Loro)
    requires WellFormed(d)
    ensures ROOT in d.kids && forall n :: n in ShownSlides(d) ==> n in d.kids
    ensures ShownSlides(d) != [] <==> Children(d, ROOT) != []
  {
    LiveKidsHas(d, ROOT);
    if LiveKids(d, ROOT) != [] {
      assert LiveKids(d, ROOT)[0] in LiveKids(d, ROOT);
    }
  }

  lemma DeckStep(d: Loro, live: seq<TreeID>, next: nat, s: Slide, some: seq<TreeID>, slides: seq<Slide>, ids: Nodes)
    requires live != [] && (s, some) == ReadSlide(d, live[0], next) && forall x :: x in ids ==> x < next
    ensures slides + ReadDeck(d, live, next) == slides + [s] + ReadDeck(d, live[1..], next + |some|)
    ensures ReadNodes(d, live, next) + ids == ReadNodes(d, live[1..], next + |some|) + (ids + Counted(some, next))
    ensures forall x :: x in ids + Counted(some, next) ==> x < next + |some|
  {
    hide ReadSlide;
    var rest := ReadDeck(d, live[1..], next + |some|);
    assert slides + ([s] + rest) == slides + [s] + rest;
    var more := ReadNodes(d, live[1..], next + |some|);
    assert ids + Counted(some, next) == Counted(some, next) + ids;
    assert more + (Counted(some, next) + ids) == more + Counted(some, next) + ids;
  }

  lemma NothingLeft(d: Loro, live: seq<TreeID>, next: nat, slides: seq<Slide>, ids: Nodes)
    requires live == []
    ensures slides + ReadDeck(d, live, next) == slides && ReadNodes(d, live, next) + ids == ids
  {
    assert slides + [] == slides;
  }
}
