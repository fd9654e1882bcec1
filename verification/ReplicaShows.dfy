/** The deck read back from the document is the replica's deck, up to local
    ids: builds compared by the place of their object on its slide. */
module ReplicaShows {
  import opened Engine
  import opened Sequences
  import opened Ops
  import opened Numbering
  import opened Tree
  import opened Replicas
  import opened TreeLaws
  import opened ReplicaRel
  import opened ReplicaOps

  /** A build with its object named by its place in z-order. */
  datatype Placed = Placed(at: Option<nat>, effect: BuildEffect, out: bool)

  function PlacedBuilds(builds: seq<Build>, ids: seq<nat>): (r: seq<Placed>)
    ensures |r| == |builds|
  {
    seq(|builds|, k requires 0 <= k < |builds| => Placed(IndexOf(ids, builds[k].target), builds[k].effect, builds[k].out))
  }

  /** What a person sees of a slide: everything but its local ids. */
  ghost predicate SameSlide(s: Slide, t: Slide) {
    && s.props.(builds := []) == t.props.(builds := [])
    && s.hidden == t.hidden
    && s.objects == t.objects
    && PlacedBuilds(s.props.builds, s.ids.objects) == PlacedBuilds(t.props.builds, t.ids.objects)
  }

  ghost predicate SameDeck(a: seq<Slide>, b: seq<Slide>) {
    |a| == |b| && forall i :: 0 <= i < |a| ==> SameSlide(a[i], b[i])
  }

  // ---------------------------------------------------------------- one slide

  lemma {:induction false} KidsRead(d: Loro, kids: seq<TreeID>, objects: seq<SlideObject>)
    requires |kids| == |objects| && forall k :: 0 <= k < |kids| ==> ReadObject(d, kids[k]) == Some(objects[k])
    ensures ReadKids(d, kids) == (kids, objects)
  {
    hide ReadObject;
    if kids != [] {
      KidsRead(d, kids[1..], objects[1..]);
      assert [kids[0]] + kids[1..] == kids && [objects[0]] + objects[1..] == objects;
    }
  }

  /** Stored builds of nodes that are not there are passed over. */
  lemma {:induction false} PassedOver(stored: seq<StoredBuild>, kids: seq<TreeID>, ids: seq<nat>, keep: set<TreeID>)
    requires |kids| == |ids| && forall n :: n in kids <==> n in keep
    ensures NamedBuilds(stored, kids, ids) == NamedBuilds(KeepNodes(stored, keep), kids, ids)
  {
    if stored != [] {
      PassedOver(stored[1..], kids, ids, keep);
      var rest := KeepNodes(stored[1..], keep);
      if stored[0].node in keep {
        assert ([stored[0]] + rest)[1..] == rest;
      } else {
        assert [] + rest == rest;
      }
    }
  }

  /** Builds stored by node and named again name the object in the same place. */
  lemma {:induction false} NamedAgain(nodes: Nodes, builds: seq<Build>, objects: seq<nat>, ids: seq<nat>)
    requires AllIn(objects, nodes) && Injective(nodes) && NoDup(objects) && NoDup(ids) && |ids| == |objects|
    requires forall b :: b in builds ==> b.target in objects
    ensures var named := NamedBuilds(Stored(nodes, builds), Named(nodes, objects), ids);
            PlacedBuilds(named, ids) == PlacedBuilds(builds, objects)
  {
    if builds == [] {
      assert NamedBuilds(Stored(nodes, builds), Named(nodes, objects), ids) == [];
    } else {
      var b := builds[0];
      assert b in builds && forall c :: c in builds[1..] ==> c in builds;
      NamedAgain(nodes, builds[1..], objects, ids);
      var at := IndexOf(objects, b.target).value;
      var kids := Named(nodes, objects);
      assert objects[at] in objects && kids[at] == nodes[b.target];
      NamedPosition(nodes, objects, at);
      IndexOfUnique(ids, at);
      var stored := Stored(nodes, builds);
      assert stored[0] == StoredBuild(nodes[b.target], b.effect, b.out) && stored[1..] == Stored(nodes, builds[1..]);
      var named := NamedBuilds(stored, kids, ids);
      var rest := NamedBuilds(stored[1..], kids, ids);
      assert named == [Build(ids[at], b.effect, b.out)] + rest;
      PlacedJoined(named, ids);
      PlacedJoined(builds, objects);
      assert named[1..] == rest;
    }
  }

  lemma PlacedJoined(builds: seq<Build>, ids: seq<nat>)
    requires builds != []
    ensures PlacedBuilds(builds, ids) ==
            [Placed(IndexOf(ids, builds[0].target), builds[0].effect, builds[0].out)] + PlacedBuilds(builds[1..], ids)
  {
  }

  lemma NamedPosition(nodes: Nodes, ids: seq<nat>, at: nat)
    requires AllIn(ids, nodes) && Injective(nodes) && NoDup(ids) && at < |ids|
    ensures Position(Named(nodes, ids), nodes[ids[at]]) == Some(at)
  {
    var l := Named(nodes, ids);
    assert forall i :: 0 <= i < |ids| ==> ids[i] in ids && l[i] == nodes[ids[i]];
    PositionAt(l, at);
  }

  lemma FreshApart(next: nat, n: nat)
    ensures NoDup(Fresh(next, n))
  {
  }

  lemma SlideShown(d: Loro, nodes: Nodes, s: Slide, stale: set<(nat, nat)>, next: nat)
    requires SlideRel(d, nodes, s, stale) && Injective(nodes) && Sound(s)
    requires forall x :: x in s.ids.objects ==> (s.ids.slide, x) !in stale
    ensures SameSlide(ReadSlide(d, nodes[s.ids.slide], next).0, s)
  {
    hide ReadObject, ReadProps, ReadBuilds, LiveKids, Named, NamedBuilds, Stored, KeepNodes, ReadKids, PlacedBuilds;
    var n := nodes[s.ids.slide];
    var kids := LiveKids(d, n);
    ShownObjects(d, nodes, s, kids);
    KidsRead(d, kids, s.objects);
    var ids := Fresh(next + 1, |kids|);
    FreshApart(next + 1, |kids|);
    var keep := Kept(nodes, s, stale);
    KeptAll(nodes, s, stale);
    PassedOver(ReadBuilds(d, n), kids, ids, keep);
    NamedAgain(nodes, s.props.builds, s.ids.objects, ids);
  }

  lemma ShownObjects(d: Loro, nodes: Nodes, s: Slide, kids: seq<TreeID>)
    requires RegsRel(d, nodes, s) && AllIn(s.ids.objects, nodes) && kids == Named(nodes, s.ids.objects)
    ensures |kids| == |s.objects| && forall k :: 0 <= k < |kids| ==> ReadObject(d, kids[k]) == Some(s.objects[k])
  {
    hide ReadObject, ReadProps;
    forall k | 0 <= k < |kids|
      ensures ReadObject(d, kids[k]) == Some(s.objects[k])
    {
      assert s.ids.objects[k] in s.ids.objects;
    }
  }

  lemma KeptAll(nodes: Nodes, s: Slide, stale: set<(nat, nat)>)
    requires AllIn(s.ids.objects, nodes) && forall x :: x in s.ids.objects ==> (s.ids.slide, x) !in stale
    ensures forall n :: n in Named(nodes, s.ids.objects) <==> n in Kept(nodes, s, stale)
  {
    NamedHas(nodes, s.ids.objects);
  }

  // ---------------------------------------------------------------- the deck

  lemma {:induction false} DeckShown(d: Loro, nodes: Nodes, deck: seq<Slide>, stale: set<(nat, nat)>, next: nat)
    requires Injective(nodes) && AllIn(SlideIdsOf(deck), nodes)
    requires forall s :: s in deck ==> SlideRel(d, nodes, s, stale) && Sound(s)
    requires forall s, x :: s in deck && x in s.ids.objects ==> (s.ids.slide, x) !in stale
    ensures SameDeck(ReadDeck(d, Named(nodes, SlideIdsOf(deck)), next), deck)
  {
    hide SlideRel, SameSlide, ReadSlide;
    if deck != [] {
      var ids := SlideIdsOf(deck);
      assert deck[0] in deck && ids[0] in ids;
      assert SlideIdsOf(deck[1..]) == ids[1..];
      assert Named(nodes, ids)[1..] == Named(nodes, ids[1..]);
      SlideShown(d, nodes, deck[0], stale, next);
      var (s, some) := ReadSlide(d, nodes[deck[0].ids.slide], next);
      DeckShown(d, nodes, deck[1..], stale, next + |some|);
      SameJoined(s, ReadDeck(d, Named(nodes, ids[1..]), next + |some|), deck);
    }
  }

  lemma SameJoined(s: Slide, rest: seq<Slide>, deck: seq<Slide>)
    requires deck != [] && SameSlide(s, deck[0]) && SameDeck(rest, deck[1..])
    ensures SameDeck([s] + rest, deck)
  {
    hide SameSlide;
    forall i | 0 <= i < |deck|
      ensures SameSlide(([s] + rest)[i], deck[i])
    {
      if i > 0 {
        assert deck[1..][i - 1] == deck[i];
      }
    }
  }

  /** The document read back shows exactly the replica's deck. */
  lemma RebuiltShows(r: Rep, a: Past)
    requires Rel(r, a) && Settled(r.deck, a)
    ensures SameDeck(Rebuilt(r.doc), r.deck)
  {
    hide WellFormed, SlideRel, LiveKids, Named, ReadDeck, PastRel, SameDeck;
    NamedLength(r.nodes, r.deck);
    DeckShown(r.doc, r.nodes, r.deck, a.stale, 1);
  }

  lemma NamedLength(nodes: Nodes, deck: seq<Slide>)
    ensures |Named(nodes, SlideIdsOf(deck))| == |deck|
  {
  }

  // ---------------------------------------------------------------- whatever the document

  lemma {:induction false} ReadDeckLength(d: Loro, shown: seq<TreeID>, next: nat)
    ensures |ReadDeck(d, shown, next)| == |shown|
  {
    if shown != [] {
      var (s, nodes) := ReadSlide(d, shown[0], next);
      ReadDeckLength(d, shown[1..], next + |nodes|);
    }
  }

  lemma {:induction false} NamedLive(stored: seq<StoredBuild>, nodes: seq<TreeID>, ids: seq<nat>)
    requires |nodes| == |ids|
    ensures forall b :: b in NamedBuilds(stored, nodes, ids) ==> b.target in ids
  {
    if stored != [] {
      NamedLive(stored[1..], nodes, ids);
    }
  }

  lemma {:induction false} ReadSlideAt(d: Loro, shown: seq<TreeID>, next: nat, i: nat) returns (from: nat)
    requires i < |shown|
    ensures |ReadDeck(d, shown, next)| == |shown|
    ensures next <= from && ReadDeck(d, shown, next)[i] == ReadSlide(d, shown[i], from).0
  {
    hide ReadSlide;
    ReadDeckLength(d, shown, next);
    var (s, nodes) := ReadSlide(d, shown[0], next);
    if i == 0 {
      from := next;
    } else {
      from := ReadSlideAt(d, shown[1..], next + |nodes|, i - 1);
    }
  }

  /** Whatever merges made of the document: as long as it has a slide, dead or
      alive, a deck read from it has one, and its builds name live objects of
      their own slide. */
  lemma RebuiltHolds(d: Loro)
    requires Children(d, ROOT) != []
    ensures |Rebuilt(d)| > 0
    ensures forall s :: s in Rebuilt(d) ==> |s.ids.objects| == |s.objects| && forall b :: b in s.props.builds ==> b.target in s.ids.objects
  {
    hide ReadProps, ReadBuilds, ReadObject, LiveKids;
    var shown := ShownSlides(d);
    ReadDeckLength(d, shown, 1);
    forall s | s in Rebuilt(d)
      ensures |s.ids.objects| == |s.objects| && forall b :: b in s.props.builds ==> b.target in s.ids.objects
    {
      var i :| 0 <= i < |Rebuilt(d)| && Rebuilt(d)[i] == s;
      var from := ReadSlideAt(d, shown, 1, i);
      var (nodes, objects) := ReadKids(d, LiveKids(d, shown[i]));
      KidsPaired(d, LiveKids(d, shown[i]));
      NamedLive(ReadBuilds(d, shown[i]), nodes, s.ids.objects);
    }
  }

  lemma {:induction false} KidsPaired(d: Loro, kids: seq<TreeID>)
    ensures var (nodes, objects) := ReadKids(d, kids); |nodes| == |objects|
  {
    hide ReadObject;
    if kids != [] {
      KidsPaired(d, kids[1..]);
    }
  }
}
