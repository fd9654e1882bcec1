/** A document started from a deck, from which every run goes on. */
module ReplicaStart {
  import opened Engine
  import opened Sequences
  import opened Ops
  import opened Numbering
  import opened GroupLaws
  import opened Identity
  import opened Timeline
  import opened Tree
  import opened Replicas
  import opened TreeLaws
  import opened RegisterLaws
  import opened ReplicaRel
  import opened ReplicaOps
  import opened ReplicaEdits
  import opened ReplicaSlides
  import opened ReplicaInsert
  import opened ReplicaSteps
  import opened ReplicaShows
  import opened ReplicaLine
  import opened ReplicaRuns
  import opened ReplicaDrift
  import opened OpLaws

  const NOTHING_PAST := Past(map[], {}, {})

  /** Slides whose ids, and their objects', are all different and not in `known`. */
  ghost predicate Apart(known: set<nat>, slides: seq<Slide>)
    decreases |slides|
  {
    slides == [] || (
      var s := slides[0];
      && Sound(s) && LiveBuilds(s)
      && s.ids.slide !in known && s.ids.slide !in s.ids.objects
      && (forall x :: x in s.ids.objects ==> x !in known)
      && Apart(known + {s.ids.slide} + ObjectSet(s), slides[1..]))
  }

  lemma BlankBased(peer: nat)
    ensures Based(Rep(Blank(peer), [], map[]), NOTHING_PAST)
  {
    assert SlideIdsOf([]) == [];
  }

  /** Objects whose ids have no nodes yet are housed in new ones. */
  lemma {:induction false} PutIsHouse(r: Rep, p: TreeID, objects: seq<SlideObject>, ids: seq<nat>)
    requires p in r.doc.kids && NoDup(ids) && forall x :: x in ids ==> x !in r.nodes
    ensures var t := HouseObjects(r, p, objects, ids).0; PutObjects(r.doc, r.nodes, p, objects, ids) == (t.doc, t.nodes)
    decreases |objects|
  {
    hide Create, WriteObject;
    if objects != [] && ids != [] {
      assert ids[0] in ids;
      var (f, n) := Create(r.doc, p, None, None);
      KidsAfterPut(r.doc, p, objects[0]);
      assert NoDup(ids[1..]) && ids[0] !in ids[1..];
      PutIsHouse(Rep(WriteObject(f, n, objects[0]), r.deck, r.nodes[ids[0] := n]), p, objects[1..], ids[1..]);
    }
  }

  lemma KidsAfterPut(d: Loro, p: TreeID, o: SlideObject)
    requires p in d.kids
    ensures var (f, n) := Create(d, p, None, None); p in f.kids && p in WriteObject(f, n, o).kids
  {
    hide WriteObject;
    var (f, n) := Create(d, p, None, None);
    ObjectReadsBack(f, n, o);
  }

  /** One more slide at the end of a document being started. */
  lemma OneStarted(r: Rep, s: Slide)
    requires Sound(s) && LiveBuilds(s) && s.ids.slide !in r.nodes && s.ids.slide !in s.ids.objects
    requires forall x :: x in s.ids.objects ==> x !in r.nodes
    requires ROOT in r.doc.kids && s.ids.slide !in SlideIdsOf(r.deck)
    requires Based(r, NOTHING_PAST)
    ensures var (f, n) := Create(r.doc, ROOT, None, None);
            var (t, _) := HouseObjects(Rep(f, [], r.nodes[s.ids.slide := n]), n, s.objects, s.ids.objects);
            Rel(Rep(WriteSlide(t.doc, t.nodes, n, s), r.deck + [s], t.nodes), NOTHING_PAST)
            && t.nodes.Keys == r.nodes.Keys + {s.ids.slide} + ObjectSet(s)
  {
    hide WellFormed, LiveKids, Within, NodesOk, Create, WriteSlide, HouseObjects, Named, Shown, Added, Seated, Based, Rel, LiveBuilds, Insert, Grown;
    hide LiveBuilds, Insert;
    BasedFacts(r);
    var (f, n) := Create(r.doc, ROOT, None, None);
    CreatedLast(r.doc, ROOT);
    NewTop(r.doc, f, n);
    WithinGrown(r.doc, f, n, ROOT, n);
    NewNode(r, f, n, ROOT, s.ids.slide);
    NotYet(r.doc, n);
    var q := Rep(f, [], r.nodes[s.ids.slide := n]);
    HouseNew(q, n, s.objects, s.ids.objects);
    var (t, order) := HouseObjects(q, n, s.objects, s.ids.objects);
    AddedFacts(f, t.doc, n, order);
    AllKnown(t.nodes, s.ids.objects);
    assert Seated(t.doc, t.nodes, s, n) by {
      IsSeated(t.doc, t.nodes, s, n);
    }
    WithinTwice(r.doc, f, t.doc, n);
    ExtendsTwice(r.doc, f, r.nodes, q.nodes, t.nodes);
    AtEnd(Named(r.nodes, SlideIdsOf(r.deck)), n, r.deck, s);
    NothingKept(s);
    SlideIn(r, NOTHING_PAST, s, n, t.doc, t.nodes, |r.deck|);
  }

  lemma NotYet(d: Loro, n: TreeID)
    requires n !in d.kids
    ensures n !in LiveKids(d, ROOT)
  {
    LiveKidsHas(d, ROOT);
  }

  lemma IsSeated(d: Loro, nodes: Nodes, s: Slide, n: TreeID)
    requires WellFormed(d) && TopLevel(d, n) && n in d.kids && NodeIs(nodes, s, n) && AllIn(s.ids.objects, nodes)
    requires LiveKids(d, n) == Named(nodes, s.ids.objects) && Shown(d, nodes, s.objects, s.ids.objects) && NodesOk(d, nodes)
    ensures Seated(d, nodes, s, n)
  {
  }

  lemma AtEnd(l: seq<TreeID>, n: TreeID, deck: seq<Slide>, s: Slide)
    requires |l| == |deck|
    ensures l + [n] == Insert(l, |deck|, n) && deck + [s] == Insert(deck, |deck|, s)
  {
  }

  lemma NothingKept(s: Slide)
    ensures InsertPast(NOTHING_PAST, s) == NOTHING_PAST
  {
    assert DropStale({}, s.ids.slide) == {};
    assert NOTHING_PAST.graves - {s.ids.slide} == NOTHING_PAST.graves;
  }

  lemma {:induction false} AllStarted(r: Rep, slides: seq<Slide>)
    requires Apart(r.nodes.Keys, slides) && (r.deck != [] || slides != []) && SlidesKnown(r)
    requires Based(r, NOTHING_PAST)
    ensures var (d, nodes) := Started(r.doc, r.nodes, slides); Rel(Rep(d, r.deck + slides, nodes), NOTHING_PAST)
    decreases |slides|
  {
    hide Based, Rel, LiveBuilds, Create, HouseObjects, WriteSlide, Sound, PutObjects;
    if slides == [] {
      assert r.deck + slides == r.deck;
      assert Rep(r.doc, r.deck, r.nodes) == r;
      RelBased(r, NOTHING_PAST);
    } else {
      var s := slides[0];
      HasRoot(r);
      assert s.ids.slide !in SlideIdsOf(r.deck);
      OneStarted(r, s);
      var (f, n) := Create(r.doc, ROOT, None, None);
      var (t, _) := HouseObjects(Rep(f, [], r.nodes[s.ids.slide := n]), n, s.objects, s.ids.objects);
      NewKid(r.doc);
      SoundIds(s);
      PutIsHouse(Rep(f, [], r.nodes[s.ids.slide := n]), n, s.objects, s.ids.objects);
      var q := Rep(WriteSlide(t.doc, t.nodes, n, s), r.deck + [s], t.nodes);
      RelBased(q, NOTHING_PAST);
      assert r.deck + [s] + slides[1..] == r.deck + slides;
      AllStarted(q, slides[1..]);
    }
  }

  lemma BasedFacts(r: Rep)
    requires Based(r, NOTHING_PAST)
    ensures WellFormed(r.doc) && NodesOk(r.doc, r.nodes) && LiveKids(r.doc, ROOT) == Named(r.nodes, SlideIdsOf(r.deck))
  {
  }

  lemma SoundIds(s: Slide)
    requires Sound(s)
    ensures NoDup(s.ids.objects)
  {
  }

  lemma NewKid(d: Loro)
    requires ROOT in d.kids
    ensures var (f, n) := Create(d, ROOT, None, None); n in f.kids
  {
  }

  lemma HasRoot(r: Rep)
    requires Based(r, NOTHING_PAST)
    ensures ROOT in r.doc.kids
  {
  }

  ghost predicate SlidesKnown(r: Rep) {
    forall x :: x in SlideIdsOf(r.deck) ==> x in r.nodes
  }

  /** A replica started from a deck whose ids are all different shows it. */
  lemma StartRel(peer: nat, slides: seq<Slide>)
    requires slides != [] && Apart({}, EnsureIds(slides))
    ensures Rel(Start(peer, slides), NOTHING_PAST)
  {
    hide Started, Based, Apart, Rel;
    var deck := EnsureIds(slides);
    EnsureIdsReady(slides);
    BlankBased(peer);
    var r := Rep(Blank(peer), [], map[]);
    assert r.nodes.Keys == {};
    AllStarted(r, deck);
    assert [] + deck == deck;
  }

  lemma StartsOnLine(doc: Doc)
    requires Valid(doc.slides)
    ensures HasLine(Session(NO_STEPS, doc))
  {
    StartOnLine(doc);
    assert OnLine([doc], NO_STEPS, doc);
  }

  /** Whatever run of edits, undos and redos follows, failed groups among them,
      each applied one recorded: replica and editor hold one deck up to
      tombstones, and the document read back shows exactly that deck. */
  lemma DocumentShowsDeck(peer: nat, slides: seq<Slide>, masters: seq<Master>, events: seq<Event>)
    requires slides != [] && Apart({}, EnsureIds(slides))
    requires FairRun(Session(NO_STEPS, Doc(EnsureIds(slides), masters)), EnsureIds(slides), events)
    ensures var p := Peer(Session(NO_STEPS, Doc(EnsureIds(slides), masters)), Start(peer, slides));
            var q := MirroredRun(p, events);
            Erase(q.rep.deck) == Erase(q.session.doc.slides) && SameDeck(Rebuilt(q.rep.doc), q.session.doc.slides)
  {
    hide Apart, Rel, FairRun, SameDeck, Rebuilt, MirroredRun, HasLine, OnLine, Valid, Trails;
    StartRel(peer, slides);
    var doc := Doc(EnsureIds(slides), masters);
    var p := Peer(Session(NO_STEPS, doc), Start(peer, slides));
    DeckValid(p.rep, NOTHING_PAST);
    StartsOnLine(doc);
    NoSteps(p.rep.deck, NOTHING_PAST);
    assert Settled(p.rep.deck, NOTHING_PAST);
    FollowedTrails(p, NOTHING_PAST);
    RunShows(p, NOTHING_PAST, events);
  }

  // ---------------------------------------------------------------- a deck without ids

  /** Slides that bring no ids, and no builds. */
  ghost predicate Unnumbered(slides: seq<Slide>) {
    forall s :: s in slides ==> s.ids == SlideIds(0, [], []) && s.props.builds == []
  }

  lemma {:induction false} NumberedApart(slides: seq<Slide>, next: nat, known: set<nat>)
    requires Unnumbered(slides) && next > 0 && forall x :: x in known ==> x < next
    ensures Apart(known, EnsureFrom(slides, next))
    decreases |slides|
  {
    if slides != [] {
      var s := slides[0];
      assert s in slides && KeptIds(s) == [];
      var (t, n) := AssignIds(s, next);
      assert t.ids.objects == Fresh(next + 1, |s.objects|);
      assert forall x :: x in slides[1..] ==> x in slides;
      NumberedApart(slides[1..], n, known + {t.ids.slide} + ObjectSet(t));
    }
  }

  /** The numbers a deck without ids is given are all different. */
  lemma FreshDeckApart(slides: seq<Slide>)
    requires Unnumbered(slides)
    ensures Apart({}, EnsureIds(slides))
  {
    NumberedApart(slides, NextId(slides), {});
  }
}
