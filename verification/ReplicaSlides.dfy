/** Ops on whole slides, written to the tree: put in, taken out, moved. */
module ReplicaSlides {
  import opened Engine
  import opened Sequences
  import opened Ops
  import opened Numbering
  import opened OpLaws
  import opened GroupLaws
  import opened Inverses
  import opened Identity
  import opened Tree
  import opened Replicas
  import opened TreeLaws
  import opened RegisterLaws
  import opened ReplicaRel
  import opened ReplicaOps
  import opened ReplicaEdits

  // ---------------------------------------------------------------- slides up to tombstones

  /** The relation of a slide does not look at its tombstone list. */
  lemma SlideRelErased(d: Loro, nodes: Nodes, s: Slide, t: Slide, stale: set<(nat, nat)>)
    requires SlideRel(d, nodes, s, stale) && EraseSlide(s) == EraseSlide(t)
    ensures SlideRel(d, nodes, t, stale)
  {
    hide ReadObject, ReadProps, ReadBuilds, KeepNodes, Stored, LiveKids, Named;
    assert t.ids.slide == s.ids.slide && t.ids.objects == s.ids.objects && t.objects == s.objects;
    assert t.props == s.props && t.hidden == s.hidden;
    assert Kept(nodes, t, stale) == Kept(nodes, s, stale);
  }

  /** After an op on slide node `m` of no other live slide: each slide of
      `deck` stays. */
  lemma LiveStays(r: Rep, a: Past, j: nat, q: Rep, b: Past, m: TreeID)
    requires Rel(r, a) && j < |r.deck| && Within(r.doc, q.doc, m) && Extends(r.doc, r.nodes, q.nodes)
    requires r.deck[j].ids.slide in r.nodes && r.nodes[r.deck[j].ids.slide] != m && m != ROOT
    requires forall x :: (r.deck[j].ids.slide, x) in b.stale <==> (r.deck[j].ids.slide, x) in a.stale
    ensures SlideRel(q.doc, q.nodes, r.deck[j], b.stale)
  {
    hide SlideRel, Within, WellFormed, Extends, RootRel;
    LiveNode(r, a, j);
    SlideStays(r.doc, q.doc, r.nodes, q.nodes, r.deck[j], m, a.stale, b.stale);
  }

  // ---------------------------------------------------------------- DeleteSlide

  function DeletePast(a: Past, s: Slide): Past {
    a.(graves := a.graves[s.ids.slide := ObjectSet(s)])
  }

  /** The slide's node, deleted, keeps its live objects under it. */
  lemma Buried(d: Loro, nodes: Nodes, s: Slide, m: TreeID)
    requires WellFormed(d) && KidsRel(d, nodes, s) && NodeIs(nodes, s, m) && m in d.parent && d.parent[m] == ROOT && m != ROOT
    requires m in d.kids
    ensures GraveRel(SetDeleted(d, m, true), nodes, s.ids.slide, ObjectSet(s))
  {
    hide LiveKids, SetDeleted, Named;
    var e := SetDeleted(d, m, true);
    KidlessSelf(d, m);
    SameLive(d, e, m);
    NamedHas(nodes, s.ids.objects);
    forall n | n in LiveKids(e, m)
      ensures exists x :: x in ObjectSet(s) && x in nodes && nodes[x] == n
    {
      var x :| x in s.ids.objects && nodes[x] == n;
      assert x in ObjectSet(s);
    }
  }

  lemma KidlessSelf(d: Loro, m: TreeID)
    requires WellFormed(d) && m in d.parent && d.parent[m] == ROOT && m != ROOT
    ensures m !in Children(d, m)
  {
  }

  lemma DeletedGraves(r: Rep, a: Past, i: nat, m: TreeID)
    requires Rel(r, a) && i < |r.deck| && NodeIs(r.nodes, r.deck[i], m)
    ensures PastRel(SetDeleted(r.doc, m, true), r.nodes, DeletePast(a, r.deck[i]))
  {
    hide LiveKids, SetDeleted, Named, SlideRel, WellFormed, SlidesRel, RootRel, Within, InSet;
    var e := SetDeleted(r.doc, m, true);
    var s := r.deck[i];
    LiveNode(r, a, i);
    SlideKids(r, a, i);
    Buried(r.doc, r.nodes, s, m);
    WithinDeleted(r.doc, m, true, m);
    var b := DeletePast(a, s);
    forall g | g in b.graves
      ensures GraveRel(e, r.nodes, g, b.graves[g])
    {
      if g != s.ids.slide {
        assert GraveRel(r.doc, r.nodes, g, a.graves[g]);
        GraveStays(r.doc, e, r.nodes, r.nodes, g, a.graves[g], m);
      }
    }
    forall g, x | (g, x) in b.tombs
      ensures TombRel(e, r.nodes, g, x)
    {
      assert TombRel(r.doc, r.nodes, g, x);
      TombStays(r.doc, e, r.nodes, r.nodes, g, x, m);
    }
  }

  lemma RootLess(r: Rep, a: Past, i: nat, m: TreeID, deck: seq<Slide>)
    requires Rel(r, a) && i < |r.deck| && NodeIs(r.nodes, r.deck[i], m)
    requires SlideIdsOf(deck) == Remove(SlideIdsOf(r.deck), i)
    ensures RootRel(SetDeleted(r.doc, m, true), r.nodes, deck) && WellFormed(SetDeleted(r.doc, m, true))
  {
    hide LiveKids, SetDeleted, Named, SlideRel, WellFormed, SlidesRel, Taken, PastRel;
    LiveNode(r, a, i);
    Killed(r.doc, m, ROOT);
    SetDeletedTree(r.doc, m, true);
    SlideFacts(r, a, i);
    NamedTaken(r.nodes, SlideIdsOf(r.deck), i);
    NoDupRemove(SlideIdsOf(r.deck), i);
  }

  lemma OtherSlides(r: Rep, a: Past, i: nat, q: Rep, b: Past, m: TreeID)
    requires Rel(r, a) && i < |r.deck| && |r.deck| > 1 && NodeIs(r.nodes, r.deck[i], m)
    requires q.deck == Bury(Remove(r.deck, i), i, r.deck[i])
    requires Within(r.doc, q.doc, m) && q.nodes == r.nodes && b.stale == a.stale
    ensures SlidesRel(q.doc, q.nodes, q.deck, b.stale)
  {
    hide SlideRel, Within, WellFormed, RootRel, PastRel, Rel;
    forall s | s in q.deck
      ensures SlideRel(q.doc, q.nodes, s, b.stale)
    {
      var k :| 0 <= k < |q.deck| && q.deck[k] == s;
      var j := if k < i then k else k + 1;
      assert EraseSlide(q.deck[k]) == EraseSlide(r.deck[j]);
      OtherNode(r, a, i, j);
      assert m != ROOT by {
        LiveNode(r, a, i);
      }
      LiveStays(r, a, j, q, b, m);
      SlideRelErased(q.doc, q.nodes, r.deck[j], s, b.stale);
    }
  }

  lemma BuriedOrder(deck: seq<Slide>, i: nat)
    requires i < |deck| && |deck| > 1
    ensures SlideIdsOf(Bury(Remove(deck, i), i, deck[i])) == Remove(SlideIdsOf(deck), i)
  {
  }

  lemma NodesAs(d: Loro, e: Loro, nodes: Nodes)
    requires NodesOk(d, nodes) && e.kids == d.kids
    ensures NodesOk(e, nodes)
  {
  }

  lemma DeleteSlideKept(r: Rep, a: Past, i: nat)
    requires Rel(r, a) && i < |r.deck| && |r.deck| > 1
    ensures r.deck[i].ids.slide in r.nodes
    ensures Rel(Rep(SetDeleted(r.doc, r.nodes[r.deck[i].ids.slide], true), Bury(Remove(r.deck, i), i, r.deck[i]), r.nodes),
                DeletePast(a, r.deck[i]))
  {
    hide LiveKids, SetDeleted, Named, SlideRel, WellFormed, SlidesRel, RootRel, PastRel, Bury, NodesOk, ObjectSet;
    LiveNode(r, a, i);
    var s := r.deck[i];
    var m := r.nodes[s.ids.slide];
    var q := Rep(SetDeleted(r.doc, m, true), Bury(Remove(r.deck, i), i, s), r.nodes);
    var b := DeletePast(a, s);
    BuriedOrder(r.deck, i);
    NodesAs(r.doc, q.doc, r.nodes);
    RootLess(r, a, i, m, q.deck);
    WithinDeleted(r.doc, m, true, m);
    OtherSlides(r, a, i, q, b, m);
    DeletedGraves(r, a, i, m);
    ValidRemoved(r.deck, i);
    IdsRemoved(r.deck, i);
    IdsBuried(Remove(r.deck, i), i, s);
  }

  // ---------------------------------------------------------------- MoveSlide

  /** A node that is not in the tree: an op within it changes no slide. */
  lemma Nowhere(d: Loro) returns (z: TreeID)
    requires WellFormed(d)
    ensures z !in d.kids && z !in d.parent && z != ROOT
  {
    z := TreeID(d.peer, d.next);
  }

  lemma IdsWith(deck: seq<Slide>, at: nat, s: Slide)
    requires at <= |deck|
    ensures SlideIdsOf(Insert(deck, at, s)) == Insert(SlideIdsOf(deck), at, s.ids.slide)
  {
  }

  lemma MovedIds(deck: seq<Slide>, i: nat, to: nat)
    requires i < |deck| && to < |deck|
    ensures SlideIdsOf(Relocate(deck, i, to)) == Insert(Remove(SlideIdsOf(deck), i), to, deck[i].ids.slide)
  {
    var ids, rest := SlideIdsOf(deck), Remove(deck, i);
    assert SlideIdsOf(rest) == Remove(ids, i);
    IdsWith(rest, to, deck[i]);
  }

  lemma SlidePlaced(r: Rep, a: Past, i: nat, to: nat, m: TreeID, e: Loro, deck: seq<Slide>)
    requires i < |r.deck| && to < |r.deck| && deck == Relocate(r.deck, i, to)
    requires var (prev, next) := Neighbours(r.nodes, SlideIdsOf(deck), to); e == Place(r.doc, m, ROOT, prev, next)
    requires Rel(r, a) && NodeIs(r.nodes, r.deck[i], m)
    ensures WellFormed(e) && OnlyOrder(r.doc, e, ROOT) && LiveSet(e) == LiveSet(r.doc)
    ensures RootRel(e, r.nodes, deck)
  {
    hide LiveKids, Named, SlideRel, WellFormed, SlidesRel, Taken, PastRel, Place, Neighbours, Beside, Insert, Relocate, Remove;
    LiveNode(r, a, i);
    SlideFacts(r, a, i);
    var ids := SlideIdsOf(r.deck);
    var rest := Remove(ids, i);
    LengthLess(ids, i);
    MovedIds(r.deck, i, to);
    NamedTaken(r.nodes, ids, i);
    NoDupRemove(ids, i);
    NeighboursAre(r.nodes, rest, to, ids[i]);
    LiveIn(r.doc, m);
    RootKnown(r.doc);
    Placed(r.doc, m, ROOT, to);
    NamedInsert(r.nodes, rest, to, ids[i]);
    NoDupInsert(rest, to, ids[i]);
  }

  lemma LengthLess<T>(s: seq<T>, i: nat)
    requires i < |s|
    ensures |Remove(s, i)| == |s| - 1
  {
  }

  lemma LiveIn(d: Loro, n: TreeID)
    requires n in d.kids && !IsDeleted(d, n)
    ensures n in LiveSet(d)
  {
  }

  lemma AllStay(r: Rep, a: Past, e: Loro)
    requires Rel(r, a) && OnlyOrder(r.doc, e, ROOT) && WellFormed(e)
    ensures SlidesRel(e, r.nodes, r.deck, a.stale) && PastRel(e, r.nodes, a)
  {
    hide LiveKids, Named, SlideRel, WellFormed, Within, RootRel;
    var z := Nowhere(r.doc);
    WithinOrder(r.doc, e, ROOT, z);
    var q := r.(doc := e);
    forall s | s in r.deck
      ensures SlideRel(e, r.nodes, s, a.stale)
    {
      var j :| 0 <= j < |r.deck| && r.deck[j] == s;
      LiveNode(r, a, j);
      LiveStays(r, a, j, q, a, z);
    }
    forall g | g in a.graves
      ensures GraveRel(e, r.nodes, g, a.graves[g])
    {
      GraveStays(r.doc, e, r.nodes, r.nodes, g, a.graves[g], z);
    }
    forall g, x | (g, x) in a.tombs
      ensures TombRel(e, r.nodes, g, x)
    {
      assert TombRel(r.doc, r.nodes, g, x);
      TombStays(r.doc, e, r.nodes, r.nodes, g, x, z);
    }
  }

  lemma MoveSlideKept(r: Rep, a: Past, i: nat, to: nat)
    requires Rel(r, a) && i < |r.deck| && to < |r.deck|
    ensures r.deck[i].ids.slide in r.nodes
    ensures var deck := Relocate(r.deck, i, to);
            var (prev, next) := Neighbours(r.nodes, SlideIdsOf(deck), to);
            Rel(Rep(Place(r.doc, r.nodes[r.deck[i].ids.slide], ROOT, prev, next), deck, r.nodes), a)
  {
    hide LiveKids, Named, SlideRel, WellFormed, RootRel, PastRel, Place, Neighbours;
    LiveNode(r, a, i);
    var deck := Relocate(r.deck, i, to);
    var (prev, next) := Neighbours(r.nodes, SlideIdsOf(deck), to);
    var e := Place(r.doc, r.nodes[r.deck[i].ids.slide], ROOT, prev, next);
    SlidePlaced(r, a, i, to, r.nodes[r.deck[i].ids.slide], e, deck);
    AllStay(r, a, e);
    RelocatedSame(r.deck, i, to);
    SlideIdsMoved(r.deck, i, to);
    IdsRelocated(r.deck, i, to);
    NodesStay(r, Rep(e, deck, r.nodes));
  }
}
