/** Each op on one slide, written to the tree, keeps the document in step
    with the deck. */
module ReplicaOps {
  import opened Engine
  import opened Sequences
  import opened Ops
  import opened Numbering
  import opened OpLaws
  import opened GroupLaws
  import opened Inverses
  import opened Identity
  import opened Tree
  import opened Replicas
  import opened TreeLaws
  import opened RegisterLaws
  import opened ReplicaRel

  // ---------------------------------------------------------------- names and nodes

  lemma NamedHas(nodes: Nodes, ids: seq<nat>)
    requires AllIn(ids, nodes)
    ensures forall x :: x in ids ==> nodes[x] in Named(nodes, ids)
    ensures forall n :: n in Named(nodes, ids) ==> exists x :: x in ids && nodes[x] == n
  {
    forall x | x in ids
      ensures nodes[x] in Named(nodes, ids)
    {
      var i :| 0 <= i < |ids| && ids[i] == x;
      assert Named(nodes, ids)[i] == nodes[x];
    }
    forall n | n in Named(nodes, ids)
      ensures exists x :: x in ids && nodes[x] == n
    {
      var i :| 0 <= i < |ids| && Named(nodes, ids)[i] == n;
      assert ids[i] in ids;
    }
  }

  ghost predicate Injective(nodes: Nodes) {
    forall a, b :: a in nodes && b in nodes && nodes[a] == nodes[b] ==> a == b
  }

  lemma NamedTaken(nodes: Nodes, ids: seq<nat>, at: nat)
    requires AllIn(ids, nodes) && Injective(nodes) && NoDup(ids) && at < |ids|
    ensures Taken(Named(nodes, ids), nodes[ids[at]]) == Named(nodes, Remove(ids, at))
  {
    var l := Named(nodes, ids);
    assert forall i :: 0 <= i < |ids| ==> ids[i] in ids;
    assert l[at] == nodes[ids[at]];
    PositionAt(l, at) by {
      forall i | 0 <= i < at
        ensures l[i] != l[at]
      {
        assert nodes[ids[i]] == l[i];
      }
    }
    assert Remove(l, at) == Named(nodes, Remove(ids, at));
  }

  lemma NamedInsert(nodes: Nodes, ids: seq<nat>, at: nat, id: nat)
    requires at <= |ids| && id in nodes
    ensures Named(nodes, Insert(ids, at, id)) == Insert(Named(nodes, ids), at, nodes[id])
  {
  }

  lemma NamedMore(d: Loro, nodes: Nodes, more: Nodes, ids: seq<nat>)
    requires AllIn(ids, nodes) && Extends(d, nodes, more)
    ensures Named(more, ids) == Named(nodes, ids) && AllIn(ids, more)
  {
    assert forall i :: 0 <= i < |ids| ==> ids[i] in ids;
  }

  /** The neighbours of position `at`, once `id` stands there. */
  lemma NeighboursAre(nodes: Nodes, rest: seq<nat>, at: nat, id: nat)
    requires AllIn(rest, nodes) && at <= |rest|
    ensures Neighbours(nodes, Insert(rest, at, id), at) == Beside(Named(nodes, rest), at)
  {
    assert forall i :: 0 <= i < |rest| ==> rest[i] in rest;
  }

  // ---------------------------------------------------------------- putting the relation together again

  lemma LiveNode(r: Rep, a: Past, i: nat)
    requires Rel(r, a) && i < |r.deck|
    ensures r.deck[i].ids.slide in r.nodes
    ensures var m := r.nodes[r.deck[i].ids.slide];
            && m in LiveKids(r.doc, ROOT) && TopLevel(r.doc, m) && m in r.doc.kids && m in r.doc.parent
            && r.doc.parent[m] == ROOT && !IsDeleted(r.doc, m)
    ensures SlideRel(r.doc, r.nodes, r.deck[i], a.stale)
  {
    var ids := SlideIdsOf(r.deck);
    assert ids[i] in ids;
    NamedHas(r.nodes, ids);
    LiveKidParent(r.doc, ROOT, r.nodes[ids[i]]);
    assert r.deck[i] in r.deck;
  }

  lemma OtherNode(r: Rep, a: Past, i: nat, j: nat)
    requires Rel(r, a) && i < |r.deck| && j < |r.deck| && i != j
    ensures r.deck[i].ids.slide in r.nodes && r.deck[j].ids.slide in r.nodes
    ensures r.deck[i].ids.slide != r.deck[j].ids.slide
    ensures r.nodes[r.deck[i].ids.slide] != r.nodes[r.deck[j].ids.slide]
  {
    LiveNode(r, a, i);
    LiveNode(r, a, j);
    var ids := SlideIdsOf(r.deck);
    assert ids[i] != ids[j];
  }

  ghost predicate StaleElsewhere(a: Past, b: Past, slide: nat) {
    forall s, x :: s != slide ==> ((s, x) in b.stale <==> (s, x) in a.stale)
  }

  ghost predicate TombsFrom(d: Loro, nodes: Nodes, a: Past, b: Past, slide: nat) {
    forall s, x :: (s, x) in b.tombs ==> if s == slide then TombRel(d, nodes, s, x) else (s, x) in a.tombs
  }

  /** What is deleted stays so when an op works on live slide `i`. */
  lemma PastStays(r: Rep, a: Past, i: nat, q: Rep, b: Past)
    requires Rel(r, a) && i < |r.deck|
    requires r.deck[i].ids.slide in r.nodes && Within(r.doc, q.doc, r.nodes[r.deck[i].ids.slide])
    requires Extends(r.doc, r.nodes, q.nodes)
    requires b.graves == a.graves && TombsFrom(q.doc, q.nodes, a, b, r.deck[i].ids.slide)
    ensures PastRel(q.doc, q.nodes, b)
  {
    var slide := r.deck[i].ids.slide;
    var m := r.nodes[slide];
    LiveNode(r, a, i);
    forall s | s in b.graves
      ensures GraveRel(q.doc, q.nodes, s, b.graves[s])
    {
      GraveStays(r.doc, q.doc, r.nodes, q.nodes, s, a.graves[s], m);
    }
    forall s, x | (s, x) in b.tombs
      ensures TombRel(q.doc, q.nodes, s, x)
    {
      if s != slide {
        assert TombRel(r.doc, r.nodes, s, x);
        TombStays(r.doc, q.doc, r.nodes, q.nodes, s, x, m);
      }
    }
  }

  /** The relation after an op that worked on slide `i` alone, from what it
      did to that slide. */
  lemma Reassembled(r: Rep, a: Past, i: nat, q: Rep, b: Past, t: Slide)
    requires Rel(r, a) && i < |r.deck| && q.deck == r.deck[i := t] && t.ids.slide == r.deck[i].ids.slide
    requires Valid(q.deck) && KnownIds(q.nodes, q.deck)
    requires t.ids.slide in r.nodes && Within(r.doc, q.doc, r.nodes[t.ids.slide])
    requires WellFormed(q.doc) && NodesOk(q.doc, q.nodes) && Extends(r.doc, r.nodes, q.nodes)
    requires LiveKids(q.doc, ROOT) == LiveKids(r.doc, ROOT)
    requires SlideRel(q.doc, q.nodes, t, b.stale)
    requires b.graves == a.graves && StaleElsewhere(a, b, t.ids.slide) && TombsFrom(q.doc, q.nodes, a, b, t.ids.slide)
    requires StaleKnown(q.nodes, b)
    ensures Rel(q, b)
  {
    RootNamed(r, a, i, q, t);
    PastStays(r, a, i, q, b);
    SlidesStay(r, a, i, q, b, t);
  }

  lemma SlidesStay(r: Rep, a: Past, i: nat, q: Rep, b: Past, t: Slide)
    requires Rel(r, a) && i < |r.deck| && q.deck == r.deck[i := t]
    requires r.deck[i].ids.slide in r.nodes && Within(r.doc, q.doc, r.nodes[r.deck[i].ids.slide])
    requires Extends(r.doc, r.nodes, q.nodes) && StaleElsewhere(a, b, r.deck[i].ids.slide)
    requires SlideRel(q.doc, q.nodes, t, b.stale)
    ensures SlidesRel(q.doc, q.nodes, q.deck, b.stale)
  {
    hide SlideRel, Within, Rel, Extends;
    forall s | s in q.deck
      ensures SlideRel(q.doc, q.nodes, s, b.stale)
    {
      var j :| 0 <= j < |q.deck| && q.deck[j] == s;
      if j != i {
        OtherStays(r, a, i, j, q, b);
      }
    }
  }

  lemma RootNamed(r: Rep, a: Past, i: nat, q: Rep, t: Slide)
    requires Rel(r, a) && i < |r.deck| && q.deck == r.deck[i := t] && t.ids.slide == r.deck[i].ids.slide
    requires Extends(r.doc, r.nodes, q.nodes) && LiveKids(q.doc, ROOT) == LiveKids(r.doc, ROOT)
    ensures RootRel(q.doc, q.nodes, q.deck)
  {
    hide WellFormed, Valid, NodesOk, KnownIds, SlidesRel, PastRel, StaleKnown, Extends, LiveKids, Named, AllIn;
    assert SlideIdsOf(q.deck) == SlideIdsOf(r.deck);
    NamedMore(r.doc, r.nodes, q.nodes, SlideIdsOf(r.deck));
  }

  lemma OtherStays(r: Rep, a: Past, i: nat, j: nat, q: Rep, b: Past)
    requires Rel(r, a) && i < |r.deck| && j < |r.deck| && j != i
    requires r.deck[i].ids.slide in r.nodes && Within(r.doc, q.doc, r.nodes[r.deck[i].ids.slide])
    requires Extends(r.doc, r.nodes, q.nodes) && StaleElsewhere(a, b, r.deck[i].ids.slide)
    ensures SlideRel(q.doc, q.nodes, r.deck[j], b.stale)
  {
    OtherNode(r, a, i, j);
    LiveNode(r, a, i);
    LiveNode(r, a, j);
    SlideStays(r.doc, q.doc, r.nodes, q.nodes, r.deck[j], r.nodes[r.deck[i].ids.slide], a.stale, b.stale);
  }

  /** The live objects of slide `i` stand under its node, apart from it. */
  lemma ObjectNode(r: Rep, a: Past, i: nat, k: nat)
    requires Rel(r, a) && i < |r.deck| && k < |r.deck[i].ids.objects|
    ensures r.deck[i].ids.slide in r.nodes && r.deck[i].ids.objects[k] in r.nodes
    ensures var m, n := r.nodes[r.deck[i].ids.slide], r.nodes[r.deck[i].ids.objects[k]];
            && n in LiveKids(r.doc, m) && n in r.doc.kids && n in r.doc.parent && r.doc.parent[n] == m && n != m
            && !IsDeleted(r.doc, n) && n != ROOT
  {
    LiveNode(r, a, i);
    var s := r.deck[i];
    assert s.ids.objects[k] in s.ids.objects;
    NamedHas(r.nodes, s.ids.objects);
    LiveKidParent(r.doc, r.nodes[s.ids.slide], r.nodes[s.ids.objects[k]]);
  }

  /** What is under a slide's node is not under the root. */
  lemma RootApart(d: Loro, e: Loro, n: TreeID)
    requires WellFormed(d) && n in d.parent && d.parent[n] != ROOT
    requires Children(e, ROOT) == Children(d, ROOT) && ROOT in e.kids && e.kids.Keys >= d.kids.Keys
    requires forall x :: x != n && x in d.kids ==> (IsDeleted(e, x) <==> IsDeleted(d, x))
    ensures LiveKids(e, ROOT) == LiveKids(d, ROOT)
  {
    assert n !in d.kids[ROOT];
    SameLive(d, e, ROOT);
  }

  // ---------------------------------------------------------------- builds

  /** `n` is the node of an object some build names. */
  ghost predicate Targets(nodes: Nodes, builds: seq<Build>, n: TreeID) {
    exists b :: b in builds && b.target in nodes && nodes[b.target] == n
  }

  lemma TargetsRest(nodes: Nodes, builds: seq<Build>, n: TreeID)
    requires builds != [] && Targets(nodes, builds[1..], n)
    ensures Targets(nodes, builds, n)
  {
    var b :| b in builds[1..] && b.target in nodes && nodes[b.target] == n;
    assert b in builds;
  }

  lemma {:induction false} StoredHas(nodes: Nodes, builds: seq<Build>, k: nat)
    requires k < |Stored(nodes, builds)|
    ensures Targets(nodes, builds, Stored(nodes, builds)[k].node)
  {
    if builds != [] {
      if builds[0].target in nodes {
        if k == 0 {
          assert builds[0] in builds;
        } else {
          StoredHas(nodes, builds[1..], k - 1);
          TargetsRest(nodes, builds, Stored(nodes, builds)[k].node);
        }
      } else {
        StoredHas(nodes, builds[1..], k);
        TargetsRest(nodes, builds, Stored(nodes, builds)[k].node);
      }
    }
  }

  lemma {:induction false} KeepAll(stored: seq<StoredBuild>, keep: set<TreeID>)
    requires forall k :: 0 <= k < |stored| ==> stored[k].node in keep
    ensures KeepNodes(stored, keep) == stored
  {
    if stored != [] {
      KeepAll(stored[1..], keep);
    }
  }

  lemma {:induction false} KeepSame(stored: seq<StoredBuild>, a: set<TreeID>, b: set<TreeID>)
    requires forall k :: 0 <= k < |stored| ==> (stored[k].node in a <==> stored[k].node in b)
    ensures KeepNodes(stored, a) == KeepNodes(stored, b)
  {
    if stored != [] {
      KeepSame(stored[1..], a, b);
    }
  }

  lemma {:induction false} KeepTwice(stored: seq<StoredBuild>, a: set<TreeID>, b: set<TreeID>)
    requires b <= a
    ensures KeepNodes(KeepNodes(stored, a), b) == KeepNodes(stored, b)
  {
    if stored != [] {
      KeepTwice(stored[1..], a, b);
      var rest := KeepNodes(stored[1..], a);
      if stored[0].node in a {
        assert ([stored[0]] + rest)[1..] == rest;
      } else {
        assert [] + rest == rest;
      }
    }
  }

  lemma KeepFirst(b: StoredBuild, rest: seq<StoredBuild>, keep: set<TreeID>)
    ensures KeepNodes([b] + rest, keep) == if b.node in keep then [b] + KeepNodes(rest, keep) else KeepNodes(rest, keep)
  {
    assert ([b] + rest)[1..] == rest;
  }

  lemma StoredFirst(nodes: Nodes, b: Build, rest: seq<Build>)
    ensures Stored(nodes, [b] + rest) ==
            if b.target in nodes then [StoredBuild(nodes[b.target], b.effect, b.out)] + Stored(nodes, rest) else Stored(nodes, rest)
  {
    assert ([b] + rest)[1..] == rest;
  }

  lemma WithoutFirst(b: Build, rest: seq<Build>, id: nat)
    ensures WithoutObject([b] + rest, id) == if b.target != id then [b] + WithoutObject(rest, id) else WithoutObject(rest, id)
  {
    assert ([b] + rest)[1..] == rest;
  }

  /** Builds with their object gone are the stored ones without its node. */
  lemma {:induction false} StoredWithout(nodes: Nodes, builds: seq<Build>, id: nat, keep: set<TreeID>)
    requires id in nodes && Injective(nodes)
    requires forall b :: b in builds && b.target in nodes ==> nodes[b.target] in keep
    ensures Stored(nodes, WithoutObject(builds, id)) == KeepNodes(Stored(nodes, builds), keep - {nodes[id]})
  {
    if builds != [] {
      hide KeepNodes, Stored, WithoutObject;
      var b, rest := builds[0], builds[1..];
      assert builds == [b] + rest;
      assert b in builds && forall c :: c in rest ==> c in builds;
      StoredWithout(nodes, rest, id, keep);
      WithoutFirst(b, rest, id);
      StoredFirst(nodes, b, rest);
      if b.target in nodes {
        assert nodes[b.target] in keep && (nodes[b.target] == nodes[id] <==> b.target == id);
        KeepFirst(StoredBuild(nodes[b.target], b.effect, b.out), Stored(nodes, rest), keep - {nodes[id]});
      }
      StoredFirst(nodes, b, WithoutObject(rest, id));
    }
  }

  /** A register just written from a slide whose builds name its objects. */
  lemma BuildsWritten(d: Loro, nodes: Nodes, s: Slide, stale: set<(nat, nat)>)
    requires Injective(nodes) && AllIn(s.ids.objects, nodes)
    requires forall x :: x in nodes ==> nodes[x] in d.kids
    requires forall b :: b in s.props.builds ==> b.target in s.ids.objects
    requires forall x :: (s.ids.slide, x) !in stale
    ensures BuildsRel(Stored(nodes, s.props.builds), nodes, s, stale)
    ensures StoredIn(d, Stored(nodes, s.props.builds))
  {
    var stored := Stored(nodes, s.props.builds);
    forall k | 0 <= k < |stored|
      ensures stored[k].node in Kept(nodes, s, stale) && stored[k].node in d.kids
    {
      StoredHas(nodes, s.props.builds, k);
      var b :| b in s.props.builds && b.target in nodes && nodes[b.target] == stored[k].node;
    }
    KeepAll(stored, Kept(nodes, s, stale));
    forall x | x in nodes && Mentions(stored, nodes[x])
      ensures x in s.ids.objects
    {
      var k :| 0 <= k < |stored| && stored[k].node == nodes[x];
      StoredHas(nodes, s.props.builds, k);
      var b :| b in s.props.builds && b.target in nodes && nodes[b.target] == stored[k].node;
    }
  }
}
