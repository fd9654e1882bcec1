/** The document each call of the deck controller leaves, part by part: notes
    typed, the master view opened and closed (decks-core/src/controller.rs). */
module ControlDocs {
  import opened Engine
  import opened Sequences
  import opened Ops
  import opened Numbering
  import opened GroupLaws
  import opened GroupUndo
  import opened OpLaws
  import opened Inverses
  import opened Timeline
  import opened Selecting
  import opened Control
  import opened ControlLine
  import opened ControlView

  // ---------------------------------------------------------------- one key

  /** From where a character was put in, up to where the texts part, `b` is that
      character again and again. */
  lemma {:induction false} Repeats(a: string, b: string, at: nat, x: char, p: nat, i: nat)
    requires at <= i <= p <= |a| && |b| == |a| + 1 && b == a[..at] + [x] + a[at..]
    requires a[..p] == b[..p]
    ensures b[i] == x
    decreases i
  {
    if i > at {
      Repeats(a, b, at, x, p, i - 1);
      assert b[i] == a[i - 1];
      assert a[..p][i - 1] == b[..p][i - 1];
    }
  }

  lemma TypedThere(a: string, b: string, at: nat, x: char, word: char -> bool)
    requires at <= |a| && word(x) && b == a[..at] + [x] + a[at..]
    ensures OneWordCharAdded(a, b, word)
  {
    var p := CommonPrefix(a, b);
    Repeats(a, b, at, x, p, p);
    assert a[p..] == b[p + 1..];
  }

  /** A key counts as typing a word exactly when it put one word character
      somewhere into the notes. */
  lemma OneWordCharExactly(a: string, b: string, word: char -> bool)
    ensures OneWordCharAdded(a, b, word) <==>
            exists at: nat, x: char :: at <= |a| && word(x) && b == a[..at] + [x] + a[at..]
  {
    if OneWordCharAdded(a, b, word) {
      var at := CommonPrefix(a, b);
      assert b == b[..at] + [b[at]] + b[at + 1..];
      assert b == a[..at] + [b[at]] + a[at..];
    }
    forall at: nat, x: char | at <= |a| && word(x) && b == a[..at] + [x] + a[at..]
      ensures OneWordCharAdded(a, b, word)
    {
      TypedThere(a, b, at, x, word);
    }
  }

  /** The same slides but for the notes of the `i`-th. */
  ghost predicate OnlyNotes(was: seq<Slide>, now: seq<Slide>, i: nat, notes: string)
    requires i < |was|
  {
    && |now| == |was|
    && (forall j :: 0 <= j < |was| && j != i ==> now[j] == was[j])
    && now[i].props.notes == notes
    && now[i].props == was[i].props.(notes := now[i].props.notes)
    && now[i].objects == was[i].objects && now[i].ids == was[i].ids && now[i].hidden == was[i].hidden
  }

  lemma NotesTaken(c: Ctl, id: nat, notes: string, word: char -> bool)
    requires Valid(c.doc.slides) && SlidePos(c.doc.slides, id).Some?
    ensures var p := c.doc.slides[SlidePos(c.doc.slides, id).value].props;
            var (t, changed) := SetNotes(c, id, notes, word);
            && (changed <==> notes != p.notes)
            && t.doc == if changed then ApplyAll(c.doc, [SetSlide(id, p.(notes := notes))]).doc else c.doc
  {
    hide ApplyAll, ApplyOps, OneWordCharAdded, Ops.EnsureIds, Valid;
    ValidIsReady(c.doc.slides);
    ReadyStays(c.doc.slides);
    var p := c.doc.slides[SlidePos(c.doc.slides, id).value].props;
    SetSlideOne(c.doc, id, p.(notes := notes));
    var typing := OneWordCharAdded(p.notes, notes, word);
    OpsDoc(c.(steps := c.steps.(merge := typing)), [SetSlide(id, p.(notes := notes))], typing && c.mergeChain);
  }

  lemma OpsDoc(c: Ctl, ops: seq<Op>, merged: bool)
    requires ops != []
    ensures var o := ApplyAll(c.doc, ops);
            var (t, changed) := ApplyOps(c, ops, merged);
            t.doc == o.doc && (changed <==> o.reply.Ok? && o.reply.value != [])
  {
    hide ApplyAll, Repaired, Record;
  }

  /** Typing in the notes pane: that slide's notes are what was typed and
      nothing else in the deck changes; it is a change exactly when they were
      something else. Notes for a slide that is not there do nothing. */
  lemma NotesSet(c: Ctl, id: nat, notes: string, word: char -> bool)
    requires Valid(c.doc.slides)
    ensures var (t, changed) := SetNotes(c, id, notes, word);
            && t.doc.masters == c.doc.masters
            && (forall i :: 0 <= i < |c.doc.slides| && c.doc.slides[i].ids.slide == id ==>
                  OnlyNotes(c.doc.slides, t.doc.slides, i, notes) && (changed <==> c.doc.slides[i].props.notes != notes))
            && ((forall i :: 0 <= i < |c.doc.slides| ==> c.doc.slides[i].ids.slide != id) ==> t == c && !changed)
  {
    hide SetNotes, ApplyAll;
    var at := SlidePos(c.doc.slides, id);
    if at.None? {
      NotesNowhere(c, id, notes, word);
    } else {
      NotesTaken(c, id, notes, word);
      SetSlideOne(c.doc, id, c.doc.slides[at.value].props.(notes := notes));
      forall i | 0 <= i < |c.doc.slides| && c.doc.slides[i].ids.slide == id
        ensures i == at.value
      {
        assert SlideIdsOf(c.doc.slides)[i] == SlideIdsOf(c.doc.slides)[at.value];
      }
    }
  }

  lemma NotesNowhere(c: Ctl, id: nat, notes: string, word: char -> bool)
    requires SlidePos(c.doc.slides, id).None?
    ensures SetNotes(c, id, notes, word) == (c, false)
  {
  }

  // ---------------------------------------------------------------- the master view

  /** The `k`-th master is the one id `id` finds. */
  ghost predicate Finds(masters: seq<Master>, id: nat, k: nat) {
    k < |masters| && masters[k].id == id && forall j :: 0 <= j < k ==> masters[j].id != id
  }

  lemma FindsPos(masters: seq<Master>, id: nat, k: nat)
    requires k < |masters|
    ensures Finds(masters, id, k) <==> MasterPos(masters, id) == Some(k)
  {
  }

  /** A master with another's background and shapes, in all else its own. */
  ghost predicate Redrawn(was: Master, now: Master, background: string, shapes: seq<SlideObject>) {
    && now.background == background && now.shapes == shapes
    && now.id == was.id && now.name == was.name && now.font == was.font && now.layouts == was.layouts
  }

  /** The masters with what the stand-in shows in the one being edited. */
  ghost predicate TakenOver(c: Ctl, now: seq<Master>)
    requires c.master.Some?
  {
    var was := c.doc.masters;
    && |now| == |was|
    && forall k :: 0 <= k < |was| ==>
         if Finds(was, c.master.value.masterId, k) && c.doc.slides != []
         then Redrawn(was[k], now[k], c.doc.slides[0].props.background, c.doc.slides[0].objects)
         else now[k] == was[k]
  }

  /** What a save writes in the master view: the deck's own slides, and the
      master as the stand-in now shows it. */
  lemma SavedInView(c: Ctl)
    ensures c.master.Some? ==> DeckOf(c).slides == c.master.value.slides && TakenOver(c, DeckOf(c).masters)
    ensures c.master.None? ==> DeckOf(c) == c.doc
  {
    if c.master.Some? {
      forall k | 0 <= k < |c.doc.masters|
        ensures Finds(c.doc.masters, c.master.value.masterId, k) <==> MasterPos(c.doc.masters, c.master.value.masterId) == Some(k)
      {
        FindsPos(c.doc.masters, c.master.value.masterId, k);
      }
    }
  }

  /** Done gives the master the stand-in's background and shapes and nothing
      else of it, leaves every other master, puts the slides back, and goes to
      the slide the view was opened from. */
  lemma DoneTakesOver(c: Ctl)
    requires c.master.Some?
    ensures var t := FinishMaster(c).0;
            && t.master.None? && t.doc.slides == c.master.value.slides && TakenOver(c, t.doc.masters)
            && (Valid(c.master.value.slides) ==> t.selection == Repaired(c.master.value.slides, Single(c.master.value.fromSlide)))
  {
    hide DeckOf, FinishMaster;
    DoneKeepsDeck(c);
    SavedInView(c);
    DoneCloses(c);
    SavedInView(FinishMaster(c).0);
  }

  lemma DoneCloses(c: Ctl)
    requires c.master.Some?
    ensures var t := FinishMaster(c).0;
            && t.master.None?
            && (Valid(c.master.value.slides) ==> t.selection == Repaired(c.master.value.slides, Single(c.master.value.fromSlide)))
  {
    hide ApplyAll, Repaired, Record, Ops.Apply;
    var e := c.master.value;
    var edited := EditedMaster(c);
    var t := Reselect(PutBack(c, e), Single(e.fromSlide));
    if edited.Some? {
      One(t.doc, SetMaster(e.masterId, edited.value));
    }
    if Valid(e.slides) {
      RepairedIdempotent(e.slides, Single(e.fromSlide));
    }
  }

  /** Slide `slide` is the `i`-th and its master is the `k`-th. */
  ghost predicate Shows(doc: Doc, slide: nat, i: nat, k: nat)
    requires i < |doc.slides| && k < |doc.masters|
  {
    && doc.slides[i].ids.slide == slide
    && if doc.slides[i].props.masterId.Some? then Finds(doc.masters, doc.slides[i].props.masterId.value, k) else k == 0
  }

  /** A slide that shows a master's decorations, and no master under them. */
  ghost predicate StandsFor(s: Slide, m: Master) {
    && s.objects == m.shapes && s.props.background == m.background && s.props.title == m.name
    && s.props.masterId.None? && s.props.builds == [] && |s.ids.objects| == |s.objects|
  }

  lemma ShowsIs(doc: Doc, slide: nat, i: nat, k: nat)
    requires Valid(doc.slides) && i < |doc.slides| && k < |doc.masters| && Shows(doc, slide, i, k)
    ensures MasterFor(doc, slide) == Some(doc.masters[k].id)
    ensures MasterPos(doc.masters, doc.masters[k].id) == Some(k)
  {
    PosIs(doc.slides, i);
  }

  /** The view opens on the master the slide names, or on the first if it names
      none, unless the view or a text is already open; what it shows is that
      master's background and shapes, on a slide of their own. */
  lemma MasterOpened(c: Ctl, slide: nat)
    requires Valid(c.doc.slides)
    ensures var t := OpenMaster(c, slide).0;
            if OpenMaster(c, slide).1 then
              && c.master.None? && !c.textOpen && t.master.Some?
              && t.master.value.slides == c.doc.slides && t.doc.masters == c.doc.masters && t.master.value.fromSlide == slide
              && |t.doc.slides| == 1
              && exists i: nat, k: nat :: i < |c.doc.slides| && k < |c.doc.masters| && Shows(c.doc, slide, i, k)
                   && t.master.value.masterId == c.doc.masters[k].id && StandsFor(t.doc.slides[0], c.doc.masters[k])
            else
              && t == c
              && (c.master.None? && !c.textOpen ==>
                    !exists i: nat, k: nat :: i < |c.doc.slides| && k < |c.doc.masters| && Shows(c.doc, slide, i, k))
  {
    forall i: nat, k: nat | i < |c.doc.slides| && k < |c.doc.masters| && Shows(c.doc, slide, i, k)
      ensures MasterFor(c.doc, slide) == Some(c.doc.masters[k].id)
      ensures MasterPos(c.doc.masters, c.doc.masters[k].id) == Some(k)
    {
      ShowsIs(c.doc, slide, i, k);
    }
    if OpenMaster(c, slide).1 {
      var i := SlidePos(c.doc.slides, slide).value;
      var k := MasterPos(c.doc.masters, MasterFor(c.doc, slide).value).value;
      EnsureIdsKeepsAndMintsAbove([MasterAsSlide(c.doc.masters[k])], 0);
      assert Shows(c.doc, slide, i, k);
      assert StandsFor(OpenMaster(c, slide).0.doc.slides[0], c.doc.masters[k]);
    }
  }

  // ---------------------------------------------------------------- selecting, and the masters

  /** Selecting objects on a slide keeps those it has, in order; the primary is
      the one asked for if it is among them, or the first. */
  lemma ObjectsSelected(c: Ctl, id: nat, objects: seq<nat>, primary: Option<nat>, mode: Mode)
    requires Valid(c.doc.slides)
    ensures var (t, done) := SelectObjects(c, id, objects, primary, mode);
            && t == c.(selection := t.selection)
            && (done <==> exists i :: 0 <= i < |c.doc.slides| && c.doc.slides[i].ids.slide == id)
            && (!done ==> t == c)
            && forall i :: 0 <= i < |c.doc.slides| && c.doc.slides[i].ids.slide == id ==>
                 var sel := t.selection;
                 && sel.slide == Some(id) && sel.range.None?
                 && KeepsLive(objects, c.doc.slides[i].ids.objects, sel.objects)
                 && sel.primary == (if primary.Some? && primary.value in sel.objects then primary
                                    else if sel.objects == [] then None else Some(sel.objects[0]))
                 && sel.mode == (if sel.objects == [] then ObjectMode else mode)
  {
    hide KeepsLive;
    forall i | 0 <= i < |c.doc.slides| && c.doc.slides[i].ids.slide == id
      ensures SlidePos(c.doc.slides, id) == Some(i) && KeepsLive(objects, c.doc.slides[i].ids.objects, StillThere(objects, c.doc.slides[i].ids.objects))
    {
      PosIs(c.doc.slides, i);
      StillThereInOrder(objects, c.doc.slides[i].ids.objects);
    }
  }

  /** A text range is taken exactly when it fits the current slide; that box is
      then all that is selected, as text. */
  lemma TextRangeSet(c: Ctl, r: TextRange)
    requires Valid(c.doc.slides)
    ensures var (t, done) := SetTextRange(c, r);
            && (done <==> exists i: nat :: i < |c.doc.slides| && c.selection.slide == Some(c.doc.slides[i].ids.slide)
                            && RangeFits(c.doc.slides[i], r))
            && t == (if done then c.(selection := Selection(c.selection.slide, [r.target], Some(r.target), TextMode, Some(r))) else c)
  {
    hide RangeFits;
    forall i: nat | i < |c.doc.slides| && c.selection.slide == Some(c.doc.slides[i].ids.slide)
      ensures SlidePos(c.doc.slides, c.doc.slides[i].ids.slide) == Some(i)
    {
      PosIs(c.doc.slides, i);
    }
  }

  /** `SetMaster` puts all of the new master, its layouts among it, in the place
      of the one with that id, under that id, and touches nothing else. */
  lemma MasterReplaced(doc: Doc, id: nat, m: Master)
    ensures var o := ApplyDoc(doc, SetMaster(id, m));
            && o.doc.slides == doc.slides && |o.doc.masters| == |doc.masters|
            && (o.reply.Ok? <==> exists k: nat :: k < |doc.masters| && Finds(doc.masters, id, k))
            && forall k :: 0 <= k < |doc.masters| ==>
                 if Finds(doc.masters, id, k)
                 then Redrawn(m.(id := id), o.doc.masters[k], m.background, m.shapes)
                 else o.doc.masters[k] == doc.masters[k]
  {
    hide Ops.Apply;
    forall k | 0 <= k < |doc.masters|
      ensures Finds(doc.masters, id, k) <==> MasterPos(doc.masters, id) == Some(k)
    {
      FindsPos(doc.masters, id, k);
    }
  }

  /** A deleted slide is taken out and the others close up; its ids, live and
      tombstoned, go to the tombstones of the slide now in its place, or of the
      last, and nothing else changes. */
  lemma SlideDeleted(slides: seq<Slide>, i: nat)
    requires Valid(slides) && |slides| > 1 && i < |slides|
    ensures var s := slides[i];
            var o := Ops.Apply(slides, DeleteSlide(s.ids.slide));
            && o.reply == Ok([InsertSlide(i, s)]) && |o.slides| == |slides| - 1
            && forall k :: 0 <= k < |slides| - 1 ==>
                 var was := slides[if k < i then k else k + 1];
                 if k == i || (k == |slides| - 2 && i == |slides| - 1)
                 then o.slides[k] == was.(ids := was.ids.(deleted := was.ids.deleted + [s.ids.slide] + s.ids.objects + s.ids.deleted))
                 else o.slides[k] == was
  {
    hide Ops.EnsureIds;
    ValidIsReady(slides);
    ReadyStays(slides);
    PosIs(slides, i);
    var k := if i < |slides| - 1 then i else |slides| - 2;
    var s, was := slides[i], slides[if k < i then k else k + 1];
    assert Remove(slides, i)[k] == was;
    assert was.ids.deleted + SlideIdList(s) == was.ids.deleted + [s.ids.slide] + s.ids.objects + s.ids.deleted;
  }
}
