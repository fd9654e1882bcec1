/** Each op on one live slide, written to the tree, keeps document and deck
    in step. */
module ReplicaEdits {
  import opened Engine
  import opened Sequences
  import opened Ops
  import opened Numbering
  import opened OpLaws
  import opened GroupLaws
  import opened Inverses
  import opened Identity
  import opened Tree
  import opened Replicas
  import opened TreeLaws
  import opened RegisterLaws
  import opened ReplicaRel
  import opened ReplicaOps

  /** The slide's builds name its objects. */
  predicate LiveBuilds(s: Slide) {
    forall b :: b in s.props.builds ==> b.target in s.ids.objects
  }

  function DropStale(stale: set<(nat, nat)>, slide: nat): set<(nat, nat)> {
    set t | t in stale && t.0 != slide
  }

  /** What `Past` becomes when an op on slide `s` is written. */
  function EditPast(a: Past, s: Slide, op: Op): Past
    requires OnOneSlide(op)
  {
    match op
    case SetSlide(_, _) => a.(stale := DropStale(a.stale, s.ids.slide))
    case InsertObject(_, _, id, _) => a.(tombs := a.tombs - {(s.ids.slide, id)})
    case DeleteObject(_, id) =>
      a.(tombs := a.tombs + {(s.ids.slide, id)},
         stale := if NamesObject(s.props.builds, id) then a.stale + {(s.ids.slide, id)} else a.stale)
    case _ => a
  }

  /** What must hold of an op on live slide `s` for the tree to follow: a new
      object's id is new, or a tombstone of the slide; builds name objects. */
  ghost predicate Fitting(r: Rep, a: Past, s: Slide, op: Op)
    requires OnOneSlide(op)
  {
    && (op.SetSlide? ==> LiveBuilds(s.(props := op.props)))
    && (op.InsertObject? ==> (s.ids.slide, op.id) in a.tombs || op.id !in Ids(r.deck))
  }

  /** Slide `i` and its object are where the relation says. */
  lemma SlideFacts(r: Rep, a: Past, i: nat)
    requires Rel(r, a) && i < |r.deck|
    ensures Sound(r.deck[i]) && r.deck[i] in r.deck
    ensures SlideRel(r.doc, r.nodes, r.deck[i], a.stale)
    ensures NodesOk(r.doc, r.nodes) && Injective(r.nodes) && WellFormed(r.doc)
  {
    LiveNode(r, a, i);
  }

  lemma KnownStays(r: Rep, a: Past, i: nat, op: Op)
    requires Rel(r, a) && i < |r.deck| && OnOneSlide(op) && SlidePos(r.deck, op.slide) == Some(i)
    ensures var deck := r.deck[i := Edit(r.deck[i], op).0];
            KnownIds(r.nodes, deck) && Valid(deck) && Edit(r.deck[i], op).0.ids.slide == r.deck[i].ids.slide
  {
    SlideFacts(r, a, i);
    ReadyStays(r.deck);
    OneSlideIs(r.deck, op);
    IdsGrow(r.deck, op);
    ValidUpdatedBy(r.deck, i, op);
  }

  // ---------------------------------------------------------------- SetSlide

  /** Writing a slide's registers touches no other's, and no object's. */
  lemma SlideWritten(r: Rep, a: Past, i: nat, t: Slide)
    requires Rel(r, a) && i < |r.deck| && t.ids == r.deck[i].ids && t.objects == r.deck[i].objects && LiveBuilds(t)
    ensures r.deck[i].ids.slide in r.nodes
    ensures var m := r.nodes[r.deck[i].ids.slide];
            var e := WriteSlide(r.doc, r.nodes, m, t);
            && SlideRel(e, r.nodes, t, DropStale(a.stale, t.ids.slide))
            && OnlyRegsOf(r.doc, e, m)
  {
    hide ReadObject, ReadProps, ReadBuilds, WriteSlide, WellFormed, Stored, KeepNodes, PastRel, BuildsRel, Valid, RootRel, LiveKids, Named;
    SlideFacts(r, a, i);
    LiveNode(r, a, i);
    var s := r.deck[i];
    var m := r.nodes[s.ids.slide];
    var d, e := r.doc, WriteSlide(r.doc, r.nodes, m, t);
    SlideReadsBack(d, r.nodes, m, t);
    OnlyRegsKeep(d, e, m);
    forall k | 0 <= k < |t.objects|
      ensures ReadObject(e, r.nodes[t.ids.objects[k]]) == Some(t.objects[k])
    {
      ObjectNode(r, a, i, k);
      SameObject(d, e, r.nodes[t.ids.objects[k]]);
    }
    BuildsWritten(e, r.nodes, t, DropStale(a.stale, t.ids.slide));
  }

  lemma SetSlideKept(r: Rep, a: Past, i: nat, op: Op)
    requires Rel(r, a) && i < |r.deck| && op.SetSlide? && SlidePos(r.deck, op.slide) == Some(i)
    requires Fitting(r, a, r.deck[i], op)
    ensures op.slide in r.nodes
    ensures var t := Edit(r.deck[i], op).0;
            var q := r.(deck := r.deck[i := t]);
            Rel(WriteOnSlide(q, op, t, r.nodes[op.slide]), EditPast(a, r.deck[i], op))
  {
    hide WriteSlide, WellFormed, SlideRel, RootRel, Valid, Fits, PastRel, KnownIds, SlidesRel, Within, TombsFrom, LiveKids;
    SlideFacts(r, a, i);
    LiveNode(r, a, i);
    var t := Edit(r.deck[i], op).0;
    KnownStays(r, a, i, op);
    SlideWritten(r, a, i, t);
    var m := r.nodes[op.slide];
    var q := WriteOnSlide(r.(deck := r.deck[i := t]), op, t, m);
    OnlyRegsKeep(r.doc, q.doc, m);
    WithinRegs(r.doc, q.doc, m, m);
    TombsAlive(r, a, q.doc, op.slide);
    Reassembled(r, a, i, q, EditPast(a, r.deck[i], op), t);
  }

  /** Deleted objects stay so where no tombstone is cleared. */
  lemma TombsAlive(r: Rep, a: Past, e: Loro, slide: nat)
    requires Rel(r, a)
    requires ParentsKept(r.doc, e)
    requires forall n :: n in r.doc.kids ==> (IsDeleted(e, n) <==> IsDeleted(r.doc, n))
    ensures TombsFrom(e, r.nodes, a, a, slide)
  {
  }

  // ---------------------------------------------------------------- SetObject

  /** Writing object `at`'s registers shows it changed, and nothing else. */
  lemma ObjectWritten(r: Rep, a: Past, i: nat, at: nat, what: SlideObject)
    requires Rel(r, a) && i < |r.deck| && at < |r.deck[i].objects| && |r.deck[i].ids.objects| == |r.deck[i].objects|
    ensures r.deck[i].ids.slide in r.nodes && r.deck[i].ids.objects[at] in r.nodes
    ensures var s := r.deck[i];
            var n := r.nodes[s.ids.objects[at]];
            var e := WriteObject(r.doc, n, what);
            && OnlyRegsOf(r.doc, e, n)
            && SlideRel(e, r.nodes, s.(objects := s.objects[at := what]), a.stale)
  {
    hide ReadObject, ReadProps, ReadBuilds, WriteObject, WellFormed, RootRel, PastRel, Valid, KeepNodes, Stored, Named, LiveKids, SlidesRel, KnownIds, StaleKnown;
    SlideFacts(r, a, i);
    LiveNode(r, a, i);
    ObjectNode(r, a, i, at);
    var s := r.deck[i];
    var m, n := r.nodes[s.ids.slide], r.nodes[s.ids.objects[at]];
    var t := s.(objects := s.objects[at := what]);
    var e := WriteObject(r.doc, n, what);
    ObjectReadsBack(r.doc, n, what);
    OnlyRegsKeep(r.doc, e, n);
    SameReads(r.doc, e, m);
    forall k | 0 <= k < |t.objects|
      ensures ReadObject(e, r.nodes[t.ids.objects[k]]) == Some(t.objects[k])
    {
      if k != at {
        ObjectNode(r, a, i, k);
        assert s.ids.objects[k] != s.ids.objects[at];
        SameObject(r.doc, e, r.nodes[s.ids.objects[k]]);
      }
    }
    assert Kept(r.nodes, t, a.stale) == Kept(r.nodes, s, a.stale);
  }

  lemma SetObjectKept(r: Rep, a: Past, i: nat, op: Op)
    requires Rel(r, a) && i < |r.deck| && op.SetObject? && SlidePos(r.deck, op.slide) == Some(i)
    requires op.id in r.deck[i].ids.objects
    ensures op.slide in r.nodes
    ensures var t := Edit(r.deck[i], op).0;
            var q := r.(deck := r.deck[i := t]);
            Rel(WriteOnSlide(q, op, t, r.nodes[op.slide]), a)
  {
    hide WriteObject, WellFormed, SlideRel, RootRel, Valid, KnownIds, SlidesRel, Within, TombsFrom, LiveKids, PastRel;
    SlideFacts(r, a, i);
    LiveNode(r, a, i);
    var s := r.deck[i];
    var t := Edit(s, op).0;
    KnownStays(r, a, i, op);
    var m := r.nodes[op.slide];
    var at := IndexOf(s.ids.objects, op.id).value;
    ObjectNode(r, a, i, at);
    ObjectWritten(r, a, i, at, op.what);
    var n := r.nodes[op.id];
    var q := Rep(WriteObject(r.doc, n, op.what), r.deck[i := t], r.nodes);
    assert WriteOnSlide(r.(deck := r.deck[i := t]), op, t, m) == q;
    OnlyRegsKeep(r.doc, q.doc, n);
    WithinRegs(r.doc, q.doc, n, m);
    TombsAlive(r, a, q.doc, op.slide);
    Reassembled(r, a, i, q, a, t);
  }

  // ---------------------------------------------------------------- MoveObject

  /** The same objects in another order are read from the same registers. */
  lemma RegsReordered(d: Loro, e: Loro, nodes: Nodes, s: Slide, from: nat, to: nat)
    requires RegsRel(d, nodes, s) && e.regs == d.regs && from < |s.objects| && to < |s.objects|
    ensures RegsRel(e, nodes, s.(objects := Relocate(s.objects, from, to),
                                 ids := s.ids.(objects := Relocate(s.ids.objects, from, to))))
  {
    hide ReadObject, ReadProps, ReadBuilds;
    SameReads(d, e, nodes[s.ids.slide]);
    var objects, ids := Relocate(s.objects, from, to), Relocate(s.ids.objects, from, to);
    forall k | 0 <= k < |objects| && ids[k] in nodes
      ensures ReadObject(e, nodes[ids[k]]) == Some(objects[k])
    {
      var j := if k == to then from else var l := if k < to then k else k - 1; if l < from then l else l + 1;
      assert objects[k] == s.objects[j] && ids[k] == s.ids.objects[j];
      SameReads(d, e, nodes[ids[k]]);
    }
  }

  /** Nor does their order matter to the builds. */
  lemma BuildsReordered(stored: seq<StoredBuild>, nodes: Nodes, s: Slide, t: Slide, stale: set<(nat, nat)>)
    requires BuildsRel(stored, nodes, s, stale)
    requires t.ids.slide == s.ids.slide && t.props == s.props && forall x :: x in t.ids.objects <==> x in s.ids.objects
    ensures BuildsRel(stored, nodes, t, stale)
  {
    assert Kept(nodes, t, stale) == Kept(nodes, s, stale);
  }

  /** Moving object `from`'s node between the neighbours of position `to`
      shows it there, and every other object and build as before. */
  lemma ObjectMoved(r: Rep, a: Past, i: nat, from: nat, to: nat)
    requires Rel(r, a) && i < |r.deck| && |r.deck[i].ids.objects| == |r.deck[i].objects|
    requires from < |r.deck[i].objects| && to < |r.deck[i].objects|
    ensures r.deck[i].ids.slide in r.nodes && r.deck[i].ids.objects[from] in r.nodes
    ensures var s := r.deck[i];
            var m, ids := r.nodes[s.ids.slide], Relocate(s.ids.objects, from, to);
            var (prev, next) := Neighbours(r.nodes, ids, to);
            var e := Place(r.doc, r.nodes[s.ids.objects[from]], m, prev, next);
            && WellFormed(e) && OnlyOrder(r.doc, e, m) && LiveSet(e) == LiveSet(r.doc)
            && SlideRel(e, r.nodes, s.(objects := Relocate(s.objects, from, to), ids := s.ids.(objects := ids)), a.stale)
  {
    hide ReadObject, ReadProps, ReadBuilds, WellFormed, RootRel, PastRel, Valid, KeepNodes, Stored, LiveKids, Place, Taken, Neighbours, BuildsRel, RegsRel, SlidesRel, KnownIds;
    hide Neighbours, BuildsRel, RegsRel;
    SlideFacts(r, a, i);
    LiveNode(r, a, i);
    var s := r.deck[i];
    var m := r.nodes[s.ids.slide];
    var id := s.ids.objects[from];
    var rest := Remove(s.ids.objects, from);
    ObjectNode(r, a, i, from);
    MovedUnique(s.ids.objects, from, to);
    NamedTaken(r.nodes, s.ids.objects, from);
    NoDupRemove(s.ids.objects, from);
    NeighboursAre(r.nodes, rest, to, id);
    Placed(r.doc, r.nodes[id], m, to);
    NamedInsert(r.nodes, rest, to, id);
    var (prev, next) := Neighbours(r.nodes, Relocate(s.ids.objects, from, to), to);
    var e := Place(r.doc, r.nodes[id], m, prev, next);
    RegsReordered(r.doc, e, r.nodes, s, from, to);
    assert RegsSame(r.doc, e, m);
    SameReads(r.doc, e, m);
    var t := s.(objects := Relocate(s.objects, from, to), ids := s.ids.(objects := Relocate(s.ids.objects, from, to)));
    BuildsReordered(ReadBuilds(r.doc, m), r.nodes, s, t, a.stale);
  }

  lemma MoveObjectKept(r: Rep, a: Past, i: nat, op: Op)
    requires Rel(r, a) && i < |r.deck| && op.MoveObject? && SlidePos(r.deck, op.slide) == Some(i)
    requires op.id in r.deck[i].ids.objects && op.to < |r.deck[i].objects|
    ensures op.slide in r.nodes
    ensures var t := Edit(r.deck[i], op).0;
            var q := r.(deck := r.deck[i := t]);
            Rel(WriteOnSlide(q, op, t, r.nodes[op.slide]), a)
  {
    hide ReadObject, ReadProps, ReadBuilds, WellFormed, SlideRel, RootRel, PastRel, Valid, Place, Relocate, Neighbours, KnownIds, SlidesRel, TombsFrom, LiveKids;
    SlideFacts(r, a, i);
    LiveNode(r, a, i);
    var s := r.deck[i];
    var t := Edit(s, op).0;
    KnownStays(r, a, i, op);
    var m := r.nodes[op.slide];
    var from := IndexOf(s.ids.objects, op.id).value;
    ObjectNode(r, a, i, from);
    ObjectMoved(r, a, i, from, op.to);
    var q := WriteOnSlide(r.(deck := r.deck[i := t]), op, t, m);
    WithinOrder(r.doc, q.doc, m, m);
    TombsAlive(r, a, q.doc, op.slide);
    RootSame(r.doc, q.doc, m);
    Reassembled(r, a, i, q, a, t);
  }

  lemma RootSame(d: Loro, e: Loro, m: TreeID)
    requires OnlyOrder(d, e, m) && LiveSet(e) == LiveSet(d) && m != ROOT
    ensures LiveKids(e, ROOT) == LiveKids(d, ROOT)
  {
    assert Children(e, ROOT) == Children(d, ROOT);
    SameLive(d, e, ROOT);
  }

  // ---------------------------------------------------------------- DeleteObject

  lemma {:induction false} KeepHas(stored: seq<StoredBuild>, keep: set<TreeID>, k: nat)
    requires k < |stored| && stored[k].node in keep
    ensures Mentions(KeepNodes(stored, keep), stored[k].node)
  {
    var rest := KeepNodes(stored[1..], keep);
    if k == 0 {
      assert KeepNodes(stored, keep)[0] == stored[0];
    } else {
      KeepHas(stored[1..], keep, k - 1);
      var j :| 0 <= j < |rest| && rest[j].node == stored[k].node;
      var all := KeepNodes(stored, keep);
      assert all[if stored[0].node in keep then j + 1 else j] == rest[j];
    }
  }

  /** An object no build names, whose builds are not stale, is not listed. */
  lemma Unlisted(stored: seq<StoredBuild>, nodes: Nodes, s: Slide, stale: set<(nat, nat)>, id: nat)
    requires BuildsRel(stored, nodes, s, stale) && Injective(nodes) && id in nodes && id in s.ids.objects
    requires (s.ids.slide, id) !in stale && !NamesObject(s.props.builds, id)
    ensures !Mentions(stored, nodes[id])
  {
    if Mentions(stored, nodes[id]) {
      var k :| 0 <= k < |stored| && stored[k].node == nodes[id];
      KeepHas(stored, Kept(nodes, s, stale), k);
      var j :| 0 <= j < |Stored(nodes, s.props.builds)| && Stored(nodes, s.props.builds)[j].node == nodes[id];
      StoredHas(nodes, s.props.builds, j);
    }
  }

  lemma BuildsLess(stored: seq<StoredBuild>, nodes: Nodes, s: Slide, t: Slide, stale: set<(nat, nat)>, id: nat)
    requires BuildsRel(stored, nodes, s, stale) && Injective(nodes) && id in nodes && id in s.ids.objects
    requires t.ids.slide == s.ids.slide && t.props == s.props.(builds := WithoutObject(s.props.builds, id))
    requires forall x :: x in t.ids.objects <==> x in s.ids.objects && x != id
    ensures BuildsRel(stored, nodes, t, if NamesObject(s.props.builds, id) then stale + {(s.ids.slide, id)} else stale)
  {
    var stale' := if NamesObject(s.props.builds, id) then stale + {(s.ids.slide, id)} else stale;
    var k, k' := Kept(nodes, s, stale), Kept(nodes, t, stale');
    forall n
      ensures n in k' <==> n in k && n != nodes[id]
    {
    }
    assert k' == k - {nodes[id]};
    KeepTwice(stored, k, k');
    StoredWithout(nodes, s.props.builds, id, k);
    if (s.ids.slide, id) !in stale' {
      Unlisted(stored, nodes, s, stale, id);
    }
  }

  /** One object fewer, read from the same registers. */
  lemma RegsFewer(d: Loro, e: Loro, nodes: Nodes, s: Slide, t: Slide, at: nat)
    requires RegsRel(d, nodes, s) && at < |s.objects|
    requires t.objects == Remove(s.objects, at) && t.ids.objects == Remove(s.ids.objects, at) && t.ids.slide == s.ids.slide
    requires t.props.(builds := []) == s.props.(builds := []) && t.hidden == s.hidden
    requires forall n :: RegsSame(d, e, n)
    ensures RegsRel(e, nodes, t)
  {
    hide ReadObject, ReadProps, ReadBuilds;
    assert RegsSame(d, e, nodes[s.ids.slide]);
    SameReads(d, e, nodes[s.ids.slide]);
    forall k | 0 <= k < |t.objects| && t.ids.objects[k] in nodes
      ensures ReadObject(e, nodes[t.ids.objects[k]]) == Some(t.objects[k])
    {
      var j := if k < at then k else k + 1;
      assert t.objects[k] == s.objects[j] && t.ids.objects[k] == s.ids.objects[j];
      assert RegsSame(d, e, nodes[t.ids.objects[k]]);
      SameReads(d, e, nodes[t.ids.objects[k]]);
    }
  }

  /** A tombstone on object `at`'s node takes it, and its builds, off the slide. */
  lemma ObjectKilled(r: Rep, a: Past, i: nat, op: Op)
    requires Rel(r, a) && i < |r.deck| && ReadySlide(r.deck[i]) && op.DeleteObject? && op.id in r.deck[i].ids.objects
    ensures r.deck[i].ids.slide in r.nodes && op.id in r.nodes
    ensures var e := SetDeleted(r.doc, r.nodes[op.id], true);
            && WellFormed(e)
            && SlideRel(e, r.nodes, Edit(r.deck[i], op).0, EditPast(a, r.deck[i], op).stale)
  {
    hide ReadObject, WellFormed, RootRel, PastRel, Valid, KeepNodes, Stored, LiveKids, Taken, SetDeleted, BuildsRel, RegsRel, NamesObject, SlidesRel, KnownIds, StaleKnown;
    hide BuildsRel, RegsRel, NamesObject;
    SlideFacts(r, a, i);
    LiveNode(r, a, i);
    var s := r.deck[i];
    var at := IndexOf(s.ids.objects, op.id).value;
    ObjectNode(r, a, i, at);
    var m, n := r.nodes[s.ids.slide], r.nodes[op.id];
    var e := SetDeleted(r.doc, n, true);
    var t := Edit(s, op).0;
    Killed(r.doc, n, m);
    SetDeletedTree(r.doc, n, true);
    NamedTaken(r.nodes, s.ids.objects, at);
    NoDupRemove(s.ids.objects, at);
    forall x
      ensures RegsSame(r.doc, e, x)
    {
    }
    RegsFewer(r.doc, e, r.nodes, s, t, at);
    SameReads(r.doc, e, m);
    BuildsLess(ReadBuilds(r.doc, m), r.nodes, s, t, a.stale, op.id);
  }

  lemma DeleteObjectKept(r: Rep, a: Past, i: nat, op: Op)
    requires Rel(r, a) && i < |r.deck| && op.DeleteObject? && SlidePos(r.deck, op.slide) == Some(i)
    requires op.id in r.deck[i].ids.objects
    ensures op.id in r.nodes
    ensures var t := Edit(r.deck[i], op).0;
            Rel(Rep(SetDeleted(r.doc, r.nodes[op.id], true), r.deck[i := t], r.nodes), EditPast(a, r.deck[i], op))
  {
    hide ReadObject, ReadProps, ReadBuilds, WellFormed, SlideRel, RootRel, PastRel, Valid, SetDeleted, LiveKids, Edit, NamesObject, NodesOk, KnownIds, SlidesRel, Within;
    hide NodesOk, KnownIds;
    SlideFacts(r, a, i);
    LiveNode(r, a, i);
    var s := r.deck[i];
    var at := IndexOf(s.ids.objects, op.id).value;
    ObjectNode(r, a, i, at);
    KnownStays(r, a, i, op);
    ObjectKilled(r, a, i, op);
    var t := Edit(s, op).0;
    var m, n := r.nodes[op.slide], r.nodes[op.id];
    var b := EditPast(a, s, op);
    var q := Rep(SetDeleted(r.doc, n, true), r.deck[i := t], r.nodes);
    WithinDeleted(r.doc, n, true, m);
    TombsMore(r, a, q.doc, n);
    RootApart(r.doc, q.doc, n);
    Reassembled(r, a, i, q, b, t);
  }

  lemma TombsMore(r: Rep, a: Past, e: Loro, n: TreeID)
    requires Rel(r, a) && ParentsKept(r.doc, e) && IsDeleted(e, n)
    requires forall x :: x != n ==> (IsDeleted(e, x) <==> IsDeleted(r.doc, x))
    ensures forall s, x :: (s, x) in a.tombs ==> TombRel(e, r.nodes, s, x)
  {
  }

  // ---------------------------------------------------------------- InsertObject

  /** One object more: `e` has the others' registers, and its own. */
  lemma RegsMore(d: Loro, e: Loro, nodes: Nodes, more: Nodes, s: Slide, t: Slide, at: nat, n: TreeID)
    requires RegsRel(d, nodes, s) && at <= |s.objects| < |t.objects| && AllIn(s.ids.objects, nodes)
    requires t.objects[..at] == s.objects[..at] && |t.objects| == |s.objects| + 1 && t.objects[at + 1..] == s.objects[at..]
    requires |t.ids.objects| == |t.objects| && t.ids.objects == Insert(s.ids.objects, at, t.ids.objects[at])
    requires t.ids.slide == s.ids.slide && t.props == s.props && t.hidden == s.hidden
    requires t.ids.objects[at] in more && more[t.ids.objects[at]] == n && ReadObject(e, n) == Some(t.objects[at])
    requires forall x :: x in nodes && nodes[x] != n ==> RegsSame(d, e, nodes[x])
    requires forall x :: x in nodes ==> x in more && more[x] == nodes[x]
    requires forall x :: x in s.ids.objects ==> nodes[x] != n
    requires nodes[s.ids.slide] != n
    ensures RegsRel(e, more, t)
  {
    hide ReadObject, ReadProps, ReadBuilds;
    SameReads(d, e, nodes[s.ids.slide]);
    forall k | 0 <= k < |t.objects| && t.ids.objects[k] in more
      ensures ReadObject(e, more[t.ids.objects[k]]) == Some(t.objects[k])
    {
      if k != at {
        var j := if k < at then k else k - 1;
        assert t.objects[k] == s.objects[j] by {
          if k < at { assert t.objects[..at][k] == s.objects[..at][k]; } else { assert t.objects[at + 1..][k - at - 1] == s.objects[at..][k - at - 1]; }
        }
        assert t.ids.objects[k] == s.ids.objects[j] && s.ids.objects[j] in s.ids.objects;
        SameReads(d, e, nodes[s.ids.objects[j]]);
      }
    }
  }

  lemma BuildsMore(d: Loro, stored: seq<StoredBuild>, nodes: Nodes, more: Nodes, s: Slide, t: Slide, stale: set<(nat, nat)>, id: nat)
    requires BuildsRel(stored, nodes, s, stale) && StoredIn(d, stored) && AllIn(s.ids.objects, nodes)
    requires Extends(d, nodes, more) && id in more && more == nodes[id := more[id]]
    requires t.ids.slide == s.ids.slide && t.props == s.props && id !in s.ids.objects
    requires forall x :: x in t.ids.objects <==> x in s.ids.objects || x == id
    requires id !in nodes ==> (s.ids.slide, id) !in stale
    ensures BuildsRel(stored, more, t, stale)
  {
    var k, k' := Kept(nodes, s, stale), Kept(more, t, stale);
    var n := more[id];
    assert (s.ids.slide, id) !in stale ==> !Mentions(stored, n);
    assert (s.ids.slide, id) in stale ==> k' == k;
    forall x
      ensures x in k' ==> x in k || x == n
      ensures x in k ==> x in k'
    {
      if x in k {
        var y :| y in s.ids.objects && y in nodes && (s.ids.slide, y) !in stale && nodes[y] == x;
        assert y in t.ids.objects && more[y] == x;
      }
    }
    KeepSame(stored, k, k');
    StoredSame(nodes, more, s.props.builds);
  }

  lemma InsertedObject(s: Slide, op: Op)
    requires ReadySlide(s) && op.InsertObject? && op.at <= |s.objects| && op.id !in s.ids.objects
    ensures var t := Edit(s, op).0;
            && t.objects == Insert(s.objects, op.at, op.what) && t.ids.objects == Insert(s.ids.objects, op.at, op.id)
            && t.props == s.props && t.hidden == s.hidden && t.ids.slide == s.ids.slide
            && |t.objects| == |s.objects| + 1 == |t.ids.objects|
            && t.objects[..op.at] == s.objects[..op.at] && t.objects[op.at + 1..] == s.objects[op.at..]
            && t.objects[op.at] == op.what && t.ids.objects[op.at] == op.id
  {
  }

  /** A node for object `op.id`, live at its place under the slide's node,
      and otherwise all as before: once written it shows the new slide. */
  lemma ObjectAdded(r: Rep, a: Past, i: nat, s: Slide, t: Slide, op: Op, f: Loro, more: Nodes, m: TreeID, n: TreeID)
    requires ReadySlide(s) && op.InsertObject? && op.slide == s.ids.slide
    requires op.at <= |s.objects| && op.id !in s.ids.objects && t == Edit(s, op).0
    requires more == r.nodes[op.id := n] && Extends(r.doc, r.nodes, more)
    requires op.id in r.nodes ==> (op.slide, op.id) in a.tombs
    requires op.at <= |LiveKids(r.doc, m)| && LiveKids(f, m) == Insert(LiveKids(r.doc, m), op.at, n)
    requires forall x :: RegsSame(r.doc, f, x)
    requires KidsSub(r.doc, f)
    requires Rel(r, a) && i < |r.deck| && s == r.deck[i] && NodeIs(r.nodes, s, m)
    ensures OnlyRegsOf(f, WriteObject(f, n, op.what), n)
    ensures SlideRel(WriteObject(f, n, op.what), more, t, a.stale)
  {
    hide ReadObject, ReadProps, ReadBuilds, WellFormed, RootRel, PastRel, Valid, KeepNodes, Stored, LiveKids, WriteObject;
    hide BuildsRel, RegsRel, NamesObject, Named, Edit, Insert, RegsSame, OnlyRegsOf, NodesOk;
    SlideFacts(r, a, i);
    var e := WriteObject(f, n, op.what);
    InsertedObject(s, op);
    ObjectReadsBack(f, n, op.what);
    OnlyRegsKeep(f, e, n);
    NoDupInsert(s.ids.objects, op.at, op.id);
    NamedMore(r.doc, r.nodes, more, s.ids.objects);
    NamedInsert(more, s.ids.objects, op.at, op.id);
    NewApart(r, a, i, op.id, more);
    forall x: TreeID | x != n
      ensures RegsSame(r.doc, e, x)
    {
      OnlyRegsSame(r.doc, f, e, n, x);
    }
    RegsMore(r.doc, e, r.nodes, more, s, t, op.at, n);
    SameReads(r.doc, e, m);
    BuildsMore(r.doc, ReadBuilds(r.doc, m), r.nodes, more, s, t, a.stale, op.id);
    OnlyRegsTree(f, e, n);
  }

  ghost predicate NodeIs(nodes: Nodes, s: Slide, m: TreeID) {
    s.ids.slide in nodes && nodes[s.ids.slide] == m
  }

  ghost predicate KidsSub(d: Loro, e: Loro) {
    forall q :: q in d.kids ==> q in e.kids
  }

  lemma OnlyRegsTree(d: Loro, e: Loro, n: TreeID)
    requires OnlyRegsOf(d, e, n)
    ensures e.kids == d.kids && e.parent == d.parent
  {
  }

  lemma OnlyRegsSame(d: Loro, f: Loro, e: Loro, n: TreeID, x: TreeID)
    requires RegsSame(d, f, x) && OnlyRegsOf(f, e, n) && x != n
    ensures RegsSame(d, e, x)
  {
  }

  /** The node of an object not on the slide is none of the slide's. */
  lemma NewApart(r: Rep, a: Past, i: nat, id: nat, more: Nodes)
    requires Rel(r, a) && i < |r.deck| && id !in r.deck[i].ids.objects
    requires id in more && Extends(r.doc, r.nodes, more)
    requires id in r.nodes ==> (r.deck[i].ids.slide, id) in a.tombs
    ensures r.deck[i].ids.slide in r.nodes && AllIn(r.deck[i].ids.objects, r.nodes)
    ensures more[id] != r.nodes[r.deck[i].ids.slide]
    ensures forall x :: x in r.deck[i].ids.objects ==> r.nodes[x] != more[id]
  {
    SlideFacts(r, a, i);
    LiveNode(r, a, i);
    if id in r.nodes {
      assert TombRel(r.doc, r.nodes, r.deck[i].ids.slide, id);
    }
  }

  /** A deleted node brought back under the parent it has, at its place. */
  lemma NodeRevived(d: Loro, nodes: Nodes, ids: seq<nat>, at: nat, id: nat, m: TreeID, n: TreeID, f: Loro)
    requires at <= |ids| && AllIn(ids, nodes) && id in nodes && n == nodes[id]
    requires WellFormed(d) && m in d.kids && n in d.kids && n in d.parent && d.parent[n] == m && IsDeleted(d, n)
    requires LiveKids(d, m) == Named(nodes, ids)
    requires var (prev, next) := Neighbours(nodes, Insert(ids, at, id), at); f == Place(SetDeleted(d, n, false), n, m, prev, next)
    ensures WellFormed(f) && OnlyOrder(SetDeleted(d, n, false), f, m) && n !in LiveKids(d, m)
    ensures LiveKids(f, m) == Insert(LiveKids(d, m), at, n)
  {
    hide WellFormed, LiveKids, Place, Taken, SetDeleted, Neighbours, Named, Insert, Beside;
    var e := SetDeleted(d, n, false);
    LiveKidsHas(d, m);
    SetDeletedTree(d, n, false);
    Revived(d, n, m);
    NotTaken(LiveKids(d, m), n);
    NeighboursAre(nodes, ids, at, id);
    Placed(e, n, m, at);
  }

  /** Bringing it back leaves all else, tombstones too, as it was. */
  lemma RevivedElsewhere(d: Loro, n: TreeID, p: TreeID, m: TreeID, f: Loro)
    requires WellFormed(d) && Under(d, n, m) && TopLevel(d, m) && n in d.kids && (p == m || p == ROOT)
    requires OnlyOrder(SetDeleted(d, n, false), f, p)
    ensures Within(d, f, m) && KidsSub(d, f) && f.parent == d.parent
    ensures forall x :: RegsSame(d, f, x)
    ensures forall x :: x != n ==> (IsDeleted(f, x) <==> IsDeleted(d, x))
    ensures !IsDeleted(f, n)
    ensures forall q :: q != p ==> Children(f, q) == Children(d, q)
  {
    hide WellFormed, LiveKids, Within, SetDeleted;
    var e := SetDeleted(d, n, false);
    WithinDeleted(d, n, false, m);
    TopStays(d, e, m);
    WithinOrder(e, f, p, m);
    WithinTwice(d, e, f, m);
  }

  lemma NotTaken(s: seq<TreeID>, n: TreeID)
    requires n !in s
    ensures Taken(s, n) == s
  {
  }

  lemma TopStays(d: Loro, e: Loro, m: TreeID)
    requires TopLevel(d, m) && e.parent == d.parent && e.kids.Keys == d.kids.Keys
    ensures TopLevel(e, m)
  {
  }

  lemma InsertObjectKept(r: Rep, a: Past, i: nat, op: Op)
    requires op.InsertObject? && i < |r.deck| && (op.slide, op.id) in a.tombs && op.at <= |r.deck[i].objects|
    requires Rel(r, a) && SlidePos(r.deck, op.slide) == Some(i)
    ensures op.slide in r.nodes
    ensures var t := Edit(r.deck[i], op).0;
            Rel(WriteOnSlide(r.(deck := r.deck[i := t]), op, t, r.nodes[op.slide]), EditPast(a, r.deck[i], op))
  {
    hide ReadObject, WellFormed, RootRel, LiveKids, SlideRel, Place, SetDeleted, Neighbours, SlidesRel, Insert, WriteObject, RegsSame, Edit, Within, NodesOk, Valid, KnownIds, ParentsKept, EditPast;
    hide SlidesRel, Insert, WriteObject, RegsSame, Edit, Within, NodesOk;
    SlideFacts(r, a, i);
    LiveNode(r, a, i);
    var s := r.deck[i];
    var t := Edit(s, op).0;
    assert TombRel(r.doc, r.nodes, s.ids.slide, op.id);
    var m, n := r.nodes[op.slide], r.nodes[op.id];
    var (prev, next) := Neighbours(r.nodes, Insert(s.ids.objects, op.at, op.id), op.at);
    var f := Place(SetDeleted(r.doc, n, false), n, m, prev, next);
    NodeKnown(r, a, op.id);
    SlideKids(r, a, i);
    NodeRevived(r.doc, r.nodes, s.ids.objects, op.at, op.id, m, n, f);
    NamedHas(r.nodes, s.ids.objects);
    RevivedElsewhere(r.doc, n, m, m, f);
    InsertedObject(s, op);
    ObjectAdded(r, a, i, s, t, op, f, r.nodes, m, n);
    var e := WriteObject(f, n, op.what);
    var q := Rep(e, r.deck[i := t], r.nodes);
    assert WriteOnSlide(r.(deck := r.deck[i := t]), op, t, m) == q;
    BackWritten(r.doc, f, e, n, m);
    BackKept(r, a, i, op, q, f, m, n, t);
  }

  lemma NodeKnown(r: Rep, a: Past, id: nat)
    requires Rel(r, a) && id in r.nodes
    ensures r.nodes[id] in r.doc.kids && r.nodes[id] != ROOT
  {
  }

  lemma SlideKids(r: Rep, a: Past, i: nat)
    requires Rel(r, a) && i < |r.deck|
    ensures KidsRel(r.doc, r.nodes, r.deck[i])
  {
    SlideFacts(r, a, i);
  }

  /** Writing the registers of what was brought back leaves the rest. */
  lemma BackWritten(d: Loro, f: Loro, e: Loro, n: TreeID, m: TreeID)
    requires OnlyRegsOf(f, e, n) && Within(d, f, m) && f.parent == d.parent && KidsSub(d, f) && WellFormed(f)
    requires forall x :: x != n ==> (IsDeleted(f, x) <==> IsDeleted(d, x))
    requires Children(f, ROOT) == Children(d, ROOT) && Under(d, n, m) && n != m && n in d.kids && m in d.parent
    requires WellFormed(d) && m != ROOT
    ensures WellFormed(e) && Within(d, e, m) && ParentsKept(d, e) && LiveKids(e, ROOT) == LiveKids(d, ROOT) && KidsSub(d, e)
    ensures forall x :: x != n ==> (IsDeleted(e, x) <==> IsDeleted(d, x))
  {
    hide WellFormed, LiveKids, Within;
    OnlyRegsKeep(f, e, n);
    OnlyRegsTree(f, e, n);
    assert TopLevel(d, m) by {
      WithinTop(d, f, m);
    }
    KeptTop(d, f, m);
    WithinWritten(d, f, e, n, m);
    assert forall x :: IsDeleted(e, x) <==> IsDeleted(f, x);
    RootKnown(f);
    RootApart(d, e, n);
  }

  lemma WithinTop(d: Loro, f: Loro, m: TreeID)
    requires Within(d, f, m)
    ensures TopLevel(d, m)
  {
  }

  lemma RootKnown(d: Loro)
    requires WellFormed(d)
    ensures ROOT in d.kids
  {
  }

  lemma BackKept(r: Rep, a: Past, i: nat, op: Op, q: Rep, f: Loro, m: TreeID, n: TreeID, t: Slide)
    requires op.InsertObject? && i < |r.deck| && op.id in r.nodes && n == r.nodes[op.id]
    requires q.nodes == r.nodes && q.deck == r.deck[i := t] && ReadySlide(r.deck[i]) && t == Edit(r.deck[i], op).0
    requires WellFormed(q.doc) && Within(r.doc, q.doc, m) && ParentsKept(r.doc, q.doc) && KidsSub(r.doc, q.doc)
    requires forall x :: x != n ==> (IsDeleted(q.doc, x) <==> IsDeleted(r.doc, x))
    requires LiveKids(q.doc, ROOT) == LiveKids(r.doc, ROOT)
    requires SlideRel(q.doc, q.nodes, t, a.stale)
    requires Rel(r, a) && NodeIs(r.nodes, r.deck[i], m) && SlidePos(r.deck, op.slide) == Some(i)
    ensures Rel(q, EditPast(a, r.deck[i], op))
  {
    hide ReadObject, ReadProps, ReadBuilds, WellFormed, RootRel, LiveKids, SlideRel, SlidesRel, Edit, Within, KnownIds, Valid;
    hide ParentsKept, PastRel, NodesOk;
    SlideFacts(r, a, i);
    KnownStays(r, a, i, op);
    NodesStay(r, q);
    TombsFewer(r, a, q.doc, op.slide, op.id);
    Reassembled(r, a, i, q, EditPast(a, r.deck[i], op), t);
  }

  lemma NodesStay(r: Rep, q: Rep)
    requires NodesOk(r.doc, r.nodes) && q.nodes == r.nodes && KidsSub(r.doc, q.doc)
    ensures NodesOk(q.doc, q.nodes)
  {
  }

  lemma KeptTop(d: Loro, f: Loro, m: TreeID)
    requires TopLevel(d, m) && m in d.parent && f.parent == d.parent
    ensures TopLevel(f, m)
  {
  }

  lemma WithinWritten(d: Loro, f: Loro, e: Loro, n: TreeID, m: TreeID)
    requires Within(d, f, m) && OnlyRegsOf(f, e, n) && Under(f, n, m) && TopLevel(f, m)
    ensures Within(d, e, m)
  {
    WithinRegs(f, e, n, m);
    WithinTwice(d, f, e, m);
  }

  /** All tombstones but that of the object brought back stay. */
  lemma TombsFewer(r: Rep, a: Past, e: Loro, slide: nat, id: nat)
    requires Rel(r, a) && ParentsKept(r.doc, e) && id in r.nodes
    requires forall x :: x != r.nodes[id] ==> (IsDeleted(e, x) <==> IsDeleted(r.doc, x))
    ensures TombsFrom(e, r.nodes, a, a.(tombs := a.tombs - {(slide, id)}), slide)
  {
    forall x | (slide, x) in a.tombs && x != id
      ensures TombRel(e, r.nodes, slide, x)
    {
      assert TombRel(r.doc, r.nodes, slide, x);
    }
  }

  /** A new object's node, made at its place. */
  lemma ObjectCreated(r: Rep, a: Past, i: nat, s: Slide, op: Op, m: TreeID, n: TreeID, f: Loro)
    requires ReadySlide(s) && op.InsertObject? && op.slide == s.ids.slide && op.at <= |s.objects|
    requires op.id !in Ids(r.deck) && m in r.doc.kids
    requires var (prev, next) := Neighbours(r.nodes, Insert(s.ids.objects, op.at, op.id), op.at);
             (f, n) == Create(r.doc, m, prev, next)
    requires Rel(r, a) && i < |r.deck| && s == r.deck[i] && NodeIs(r.nodes, s, m)
    ensures op.id !in s.ids.objects && op.at <= |LiveKids(r.doc, m)| && LiveKids(f, m) == Insert(LiveKids(r.doc, m), op.at, n)
    ensures Grown(r.doc, f, n, m) && Within(r.doc, f, m) && KidsSub(r.doc, f)
    ensures forall x :: RegsSame(r.doc, f, x)
    ensures LiveKids(f, ROOT) == LiveKids(r.doc, ROOT) && op.id !in r.nodes
  {
    hide ReadObject, ReadProps, ReadBuilds, WellFormed, RootRel, Valid, LiveKids, BuildsRel, RegsRel, Create;
    hide Neighbours, SlidesRel, Named, Insert;
    SlideFacts(r, a, i);
    LiveNode(r, a, i);
    NeighboursAre(r.nodes, s.ids.objects, op.at, op.id);
    Created(r.doc, m, op.at);
    WithinGrown(r.doc, f, n, m, m);
    IdsOfOne(r.deck, i);
    RootGrown(r.doc, f, n, m);
  }

  lemma RootGrown(d: Loro, f: Loro, n: TreeID, m: TreeID)
    requires Grown(d, f, n, m) && WellFormed(d) && m != ROOT
    ensures LiveKids(f, ROOT) == LiveKids(d, ROOT)
  {
    hide LiveKids, Get, NoDup;
    assert n !in d.kids[ROOT];
    SameLive(d, f, ROOT);
  }

  lemma InsertNewObjectKept(r: Rep, a: Past, i: nat, op: Op)
    requires op.InsertObject? && i < |r.deck| && op.id !in Ids(r.deck) && op.at <= |r.deck[i].objects|
    requires Rel(r, a) && SlidePos(r.deck, op.slide) == Some(i)
    ensures op.slide in r.nodes
    ensures var t := Edit(r.deck[i], op).0;
            Rel(WriteOnSlide(r.(deck := r.deck[i := t]), op, t, r.nodes[op.slide]), EditPast(a, r.deck[i], op))
  {
    hide ReadObject, RootRel, LiveKids, SlideRel, Create, Neighbours, SlidesRel, Insert, WriteObject, RegsSame, Edit, Within, Valid, KnownIds, PastRel, NodesOk, Extends, Grown, EditPast;
    hide SlidesRel, Insert, WriteObject, RegsSame, Edit, Within;
    SlideFacts(r, a, i);
    LiveNode(r, a, i);
    var s := r.deck[i];
    var t := Edit(s, op).0;
    var m := r.nodes[op.slide];
    var (prev, next) := Neighbours(r.nodes, Insert(s.ids.objects, op.at, op.id), op.at);
    var (f, n) := Create(r.doc, m, prev, next);
    var more := r.nodes[op.id := n];
    ObjectCreated(r, a, i, s, op, m, n, f);
    NewNode(r, f, n, m, op.id);
    InsertedObject(s, op);
    ObjectAdded(r, a, i, s, t, op, f, more, m, n);
    var e := WriteObject(f, n, op.what);
    var q := Rep(e, r.deck[i := t], more);
    assert WriteOnSlide(r.(deck := r.deck[i := t]), op, t, m) == q;
    NewObjectKnown(r, a, i, op, more);
    NewObjectKept(r, a, i, op, q, f, m, n, t);
  }

  lemma NewObjectKept(r: Rep, a: Past, i: nat, op: Op, q: Rep, f: Loro, m: TreeID, n: TreeID, t: Slide)
    requires op.InsertObject? && i < |r.deck| && op.id !in r.nodes && t.ids.slide == op.slide && op.slide == r.deck[i].ids.slide
    requires Grown(r.doc, f, n, m) && OnlyRegsOf(f, q.doc, n) && q.nodes == r.nodes[op.id := n] && q.deck == r.deck[i := t]
    requires Within(r.doc, f, m) && LiveKids(f, ROOT) == LiveKids(r.doc, ROOT)
    requires KnownIds(q.nodes, q.deck) && Valid(q.deck) && NodesOk(f, q.nodes) && Extends(r.doc, r.nodes, q.nodes)
    requires SlideRel(q.doc, q.nodes, t, a.stale)
    requires Rel(r, a) && NodeIs(r.nodes, r.deck[i], m)
    ensures Rel(q, EditPast(a, r.deck[i], op))
  {
    hide ReadObject, ReadProps, ReadBuilds, RootRel, LiveKids, SlideRel, SlidesRel, Insert, RegsSame, Edit, Valid, KnownIds, Within, PastRel, TombsFrom;
    LiveNode(r, a, i);
    OnlyRegsKeep(f, q.doc, n);
    OnlyRegsTree(f, q.doc, n);
    GrownTop(r.doc, f, n, m);
    WithinWritten(r.doc, f, q.doc, n, m);
    NewTombs(r, a, f, q, n, m, op.slide, op.id);
    Reassembled(r, a, i, q, EditPast(a, r.deck[i], op), t);
  }

  lemma GrownTop(d: Loro, f: Loro, n: TreeID, m: TreeID)
    requires Grown(d, f, n, m) && TopLevel(d, m) && m in d.kids
    ensures TopLevel(f, m) && Under(f, n, m) && n in f.kids
  {
  }

  lemma NewTombs(r: Rep, a: Past, f: Loro, q: Rep, n: TreeID, m: TreeID, slide: nat, id: nat)
    requires Rel(r, a) && Grown(r.doc, f, n, m) && OnlyRegsOf(f, q.doc, n)
    requires q.nodes == r.nodes[id := n] && id !in r.nodes
    ensures TombsFrom(q.doc, q.nodes, a, a.(tombs := a.tombs - {(slide, id)}), slide)
  {
    hide WellFormed, Valid, KnownIds, RootRel, SlidesRel, StaleKnown, LiveKids, GraveRel, Get;
    forall x | (slide, x) in a.tombs && x != id
      ensures TombRel(q.doc, q.nodes, slide, x)
    {
      assert TombRel(r.doc, r.nodes, slide, x);
    }
  }

  lemma NewNode(r: Rep, f: Loro, n: TreeID, m: TreeID, id: nat)
    requires NodesOk(r.doc, r.nodes) && Grown(r.doc, f, n, m) && id !in r.nodes
    ensures Extends(r.doc, r.nodes, r.nodes[id := n]) && NodesOk(f, r.nodes[id := n])
  {
    hide Get, RegsSame;
  }

  lemma NewObjectKnown(r: Rep, a: Past, i: nat, op: Op, more: Nodes)
    requires Rel(r, a) && i < |r.deck| && op.InsertObject? && SlidePos(r.deck, op.slide) == Some(i)
    requires op.at <= |r.deck[i].objects| && op.id !in r.deck[i].ids.objects && Sound(r.deck[i])
    requires more.Keys == r.nodes.Keys + {op.id}
    ensures var deck := r.deck[i := Edit(r.deck[i], op).0];
            KnownIds(more, deck) && Valid(deck) && Edit(r.deck[i], op).0.ids.slide == r.deck[i].ids.slide
  {
    KnownStays(r, a, i, op);
    InsertedObject(r.deck[i], op);
    IdsOfOne(r.deck[i := Edit(r.deck[i], op).0], i);
    assert op.id in Edit(r.deck[i], op).0.ids.objects;
  }
}
