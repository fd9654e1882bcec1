/** Inputs on which the editor falls short of what it promises. */
module Shortfalls {
  import opened Engine
  import opened Sequences
  import opened Ops
  import opened Numbering
  import opened OpLaws
  import opened GroupLaws
  import opened Inverses
  import opened Identity

  const BARE_PROPS := SlideProps("", "", None, "", None, NoTransition, [], None)

  /** A slide with a build that names no object of it. */
  const DANGLING := Slide(BARE_PROPS.(builds := [Build(9, Appear, false)]), false, [], SlideIds(1, [], []))

  /** Inserting the object the dangling build names, and undoing it, takes the
      build away: the inverse applies, and does not restore the deck. */
  lemma DanglingBuildIsLost(o: SlideObject)
    ensures var doc := Doc([DANGLING], []);
            var op := InsertObject(1, 0, 9, o);
            Valid(doc.slides) && ApplyDoc(doc, op).reply.Ok? && InverseApplies(doc, op) && !Restores(doc, op)
  {
    var doc := Doc([DANGLING], []);
    var op := InsertObject(1, 0, 9, o);
    assert Sound(DANGLING);
    assert SlideIdsOf(doc.slides) == [1];
    PosIs(doc.slides, 0);
    OneSlideIs(doc.slides, op);
    var b := Build(9, Appear, false);
    assert b in DANGLING.props.builds && b.target == 9;
    assert NamesObject(DANGLING.props.builds, 9);
    InverseRestores(doc, op);
  }

  /** A copy of a slide put in without ids keeps its builds, and not one of
      those that named an object of the original names an object of the copy. */
  lemma CopiedBuildsDangle(slides: seq<Slide>, at: nat, page: Slide, b: Build)
    requires at <= |slides| && page.ids == SlideIds(0, [], [])
    requires b in page.props.builds && b.target in Ids(slides)
    ensures var s := Inserted(slides, at, page);
            b in s.props.builds && b.target !in s.ids.objects
  {
    InsertedIsApart(slides, at, page);
    MaxIdBounds(slides);
  }

  /** Where two decks have seen different ids, a slide without ids put into
      both gets different ones. */
  lemma MintsApart(a: seq<Slide>, b: seq<Slide>, at: nat, page: Slide)
    requires at <= |a| && at <= |b| && page.ids == SlideIds(0, [], []) && MaxId(a) != MaxId(b)
    ensures Inserted(a, at, page).ids.slide != Inserted(b, at, page).ids.slide
  {
    InsertedIsApart(a, at, page);
    InsertedIsApart(b, at, page);
  }

  /** An op on the only slide of a deck. */
  lemma OnOnlySlide(doc: Doc, op: Op)
    requires Valid(doc.slides) && |doc.slides| == 1 && OnOneSlide(op) && op.slide == doc.slides[0].ids.slide
    ensures var (t, reply) := Edit(doc.slides[0], op);
            ApplyDoc(doc, op) == DocOutcome(doc.(slides := [t]), reply)
  {
    hide Edit, Apply;
    PosIs(doc.slides, 0);
    OneSlideIs(doc.slides, op);
    assert doc.slides[0 := Edit(doc.slides[0], op).0] == [Edit(doc.slides[0], op).0];
  }

  lemma PutInAndOut(s: Slide, x: nat, o: SlideObject)
    requires Sound(s) && x !in s.ids.objects
    ensures var (t, reply) := Edit(s, InsertObject(s.ids.slide, 0, x, o));
            && reply == Ok([DeleteObject(s.ids.slide, x)]) && Sound(t) && t.ids.slide == s.ids.slide
            && x in Edit(t, DeleteObject(s.ids.slide, x)).0.ids.deleted && Edit(t, DeleteObject(s.ids.slide, x)).1.Ok?
  {
    NoDupInsert(s.ids.objects, 0, x);
    assert Edit(s, InsertObject(s.ids.slide, 0, x, o)).0.ids.objects[0] == x;
  }

  lemma TombstoneCounts(u: Slide, x: nat)
    requires x in u.ids.deleted
    ensures NextId([u]) > x
  {
    assert x in SlideIdList([u][0]);
    assert x in Ids([u]);
    MaxIdBounds([u]);
  }

  lemma LastSlideStays(doc: Doc)
    requires Valid(doc.slides) && |doc.slides| == 1
    ensures ApplyDoc(doc, DeleteSlide(doc.slides[0].ids.slide)) == DocOutcome(doc, Err(LastSlide))
  {
    ReadyStays(doc.slides);
    PosIs(doc.slides, 0);
    assert Apply(doc.slides, DeleteSlide(doc.slides[0].ids.slide)) == Outcome(doc.slides, Err(LastSlide));
  }

  lemma NextIsNew(slides: seq<Slide>)
    requires Valid(slides)
    ensures Sound(slides[0]) && NextId(slides) !in slides[0].ids.objects
  {
    IdsOfOne(slides, 0);
    MaxIdBounds(slides);
  }

  lemma OneIsValid(s: Slide)
    requires Sound(s)
    ensures Valid([s])
  {
    assert SlideIdsOf([s]) == [s.ids.slide];
  }

  /** A group that fails and is rolled back is not without a trace: on a deck
      of one slide, putting an object in and then deleting the slide leaves the
      object's id tombstoned, and the next id minted is another. A replica is
      told only of groups that applied. */
  lemma RolledBackGroupMints(doc: Doc, o: SlideObject)
    requires Valid(doc.slides) && |doc.slides| == 1
    ensures var id := doc.slides[0].ids.slide;
            var out := ApplyAll(doc, [InsertObject(id, 0, NextId(doc.slides), o), DeleteSlide(id)]);
            out.reply == Err(LastSlide) && NextId(out.doc.slides) > NextId(doc.slides)
  {
    hide Edit, ApplyAll, ApplyDoc, NextId, Valid;
    var s := doc.slides[0];
    var id, x := s.ids.slide, NextId(doc.slides);
    var first, back := InsertObject(id, 0, x, o), DeleteObject(id, x);
    NextIsNew(doc.slides);
    PutInAndOut(s, x, o);
    OnOnlySlide(doc, first);
    var t := Edit(s, first).0;
    OneIsValid(t);
    var mid := doc.(slides := [t]);
    LastSlideStays(mid);
    OnOnlySlide(mid, back);
    var u := Edit(t, back).0;
    TombstoneCounts(u, x);
    One(mid, back);
    TwoOps(doc, first, DeleteSlide(id), mid, back);
  }

  /** A group of two whose second op fails comes to the first's inverse applied. */
  lemma TwoOps(doc: Doc, first: Op, second: Op, mid: Doc, back: Op)
    requires ApplyDoc(doc, first) == DocOutcome(mid, Ok([back])) && ApplyDoc(mid, second).reply.Err? && ApplyDoc(mid, second).doc == mid
    ensures ApplyAll(doc, [first, second]) == DocOutcome(ApplyAll(mid, [back]).doc, ApplyDoc(mid, second).reply)
  {
    hide ApplyDoc;
    assert [first, second][1..] == [second];
    assert ApplyAll(mid, [second]) == ApplyDoc(mid, second);
  }
}
