/** The save clock: what a clean deck, and a save still being written, say
    about the deck. */
module ControlSaves {
  import opened Engine
  import opened Sequences
  import opened Ops
  import opened Numbering
  import opened OpLaws
  import opened GroupLaws
  import opened Inverses
  import opened GroupUndo
  import opened Timeline
  import opened Selecting
  import opened Control
  import opened ControlLine
  import opened ControlStacks
  import opened ControlView

  /** A save being written: the revision and the deck it took. */
  datatype Staged = Staged(checkpoint: nat, deck: Doc)

  /** The controller, the saves being written, and the last one acknowledged. */
  datatype Desk = Desk(ctl: Ctl, staged: seq<Staged>, written: Option<Doc>)

  datatype Act = MakeCall(call: Call) | Stage | Finish(save: nat)

  /** `Finish` acknowledges a staged save by its checkpoint. */
  function Perform(d: Desk, act: Act): Desk {
    match act
    case MakeCall(call) => d.(ctl := Make(d.ctl, call))
    case Stage => d.(staged := d.staged + [Staged(d.ctl.revision, DeckOf(d.ctl))])
    case Finish(save) =>
      if save >= |d.staged| then d
      else
        var (t, clean) := AcknowledgeSave(d.ctl, d.staged[save].checkpoint);
        Desk(t, d.staged, if clean then Some(d.staged[save].deck) else d.written)
  }

  /** A save taken at the current revision took the deck as it is, and a
      clean deck is what the last acknowledged save wrote. */
  ghost predicate Clocked(d: Desk) {
    && (forall k :: 0 <= k < |d.staged| ==> CurrentSave(d.ctl, d.staged[k]))
    && (!d.ctl.dirty && d.ctl.saved.Some? ==>
          d.ctl.saved == Some(d.ctl.revision) && d.written.Some? && Same(d.written.value, DeckOf(d.ctl)))
  }

  ghost predicate CurrentSave(c: Ctl, s: Staged) {
    s.checkpoint <= c.revision && (s.checkpoint == c.revision ==> Same(s.deck, DeckOf(c)))
  }

  /** Whether the edits in the master view left the master as it was. */
  predicate MasterUntouched(c: Ctl) {
    c.master.Some? ==> DeckOf(c).masters == c.doc.masters
  }

  /** Nothing depends on the deck of this revision: it is to be saved, and no
      save being written took it. */
  predicate Unsaved(d: Desk) {
    && (d.ctl.dirty || d.ctl.saved.None?)
    && (forall k :: 0 <= k < |d.staged| ==> d.staged[k].checkpoint != d.ctl.revision)
  }

  /** A call either moves the clock on, or leaves the deck a save would write. */
  ghost predicate KeepsClock(c: Ctl, t: Ctl) {
    && t.saved == c.saved
    && (if t.revision == c.revision then t.dirty == c.dirty && Same(DeckOf(t), DeckOf(c))
        else t.revision == c.revision + 1 && t.dirty)
  }

  lemma KeptClock(d: Desk, t: Ctl)
    requires Clocked(d) && KeepsClock(d.ctl, t)
    ensures Clocked(d.(ctl := t))
  {
    hide DeckOf;
    assert forall k :: 0 <= k < |d.staged| ==> CurrentSave(d.ctl, d.staged[k]);
  }

  lemma ApplyOpsClock(c: Ctl, ops: seq<Op>, merged: bool)
    requires Stands(c.steps, c.doc) && UndoableAll(c.doc, ops) && (c.master.Some? ==> MasterFree(ops) && MasterFreeSteps(c.steps))
    ensures KeepsClock(c, ApplyOps(c, ops, merged).0)
  {
    hide ApplyAll, Repaired, Record, DeckOf;
    StandsValid(c.steps, c.doc);
    var t := ApplyOps(c, ops, merged).0;
    if t.revision == c.revision && ops != [] {
      NothingDone(c.doc, ops);
      SameDeck(c, t);
    }
  }

  /** Tombstones are not part of the deck a save writes. */
  lemma SameDeck(c: Ctl, t: Ctl)
    requires Valid(c.doc.slides) && Same(t.doc, c.doc) && t.master == c.master
    ensures Same(DeckOf(t), DeckOf(c))
  {
    SameErased(c.doc.slides, t.doc.slides);
    assert EraseSlide(c.doc.slides[0]) == EraseSlide(t.doc.slides[0]);
  }

  lemma MarksDoNotCount(c: Ctl, marked: Ctl, u: Ctl, t: Ctl)
    requires marked == c.(steps := marked.steps) && t == u.(steps := t.steps, mergeChain := t.mergeChain)
    requires KeepsClock(marked, u)
    ensures KeepsClock(c, t)
  {
    hide Same;
  }

  lemma ClockStays(c: Ctl, t: Ctl)
    requires t == c.(steps := t.steps, mergeChain := t.mergeChain)
    ensures KeepsClock(c, t)
  {
  }

  lemma SetNotesClock(c: Ctl, id: nat, notes: string, word: char -> bool)
    requires Standing(c)
    ensures KeepsClock(c, SetNotes(c, id, notes, word).0)
  {
    hide ApplyOps, SetNotes, OneWordCharAdded, KeepsClock, HasLine;
    StandsValid(c.steps, c.doc);
    var old' := NotesOf(c.doc.slides, id);
    if old'.Some? {
      if old'.value == notes {
        NotesUnchanged(c, id, word);
        ClockStays(c, SetNotes(c, id, notes, word).0);
      } else {
        var typing := OneWordCharAdded(old'.value, notes, word);
        var ops := NotesAreOps(c, id, notes, word);
        var marked := c.(steps := c.steps.(merge := typing));
        MarkStands(c.steps, c.doc, typing);
        ApplyOpsClock(marked, ops, typing && c.mergeChain);
        MarksDoNotCount(c, marked, ApplyOps(marked, ops, typing && c.mergeChain).0, SetNotes(c, id, notes, word).0);
      }
    } else {
      NotesMissing(c, id, notes, word);
      ClockStays(c, c);
    }
  }

  lemma StepsClock(c: Ctl)
    requires Standing(c)
    ensures KeepsClock(c, UndoCall(c).0) && KeepsClock(c, RedoCall(c).0)
  {
    hide ApplyAll, Repaired, Record, MasterPos;
    if !c.textOpen {
      StepsNeverFail(c);
    }
  }

  /** Opening the view changes nothing a save would write. */
  lemma OpenClock(c: Ctl, slide: nat)
    requires Standing(c)
    ensures KeepsClock(c, OpenMaster(c, slide).0)
  {
    var (t, open) := OpenMaster(c, slide);
    if open {
      var at := MasterPos(c.doc.masters, t.master.value.masterId).value;
      var m := c.doc.masters[at];
      EnsureIdsKeepsAndMintsAbove([MasterAsSlide(m)], 0);
      assert MasterFromSlide(m, t.doc.slides[0]) == m;
      assert c.doc.masters[at := m] == c.doc.masters;
    }
  }

  lemma FinishClock(c: Ctl)
    requires Standing(c)
    ensures KeepsClock(c, FinishMaster(c).0)
  {
    hide ApplyAll, Repaired, DeckOf, ApplyDoc, Record;
    if c.master.Some? {
      DoneKeepsDeck(c);
      var e := c.master.value;
      var t := Reselect(PutBack(c, e), Single(e.fromSlide));
      if EditedMaster(c).Some? {
        One(t.doc, SetMaster(e.masterId, EditedMaster(c).value));
      }
    }
  }

  lemma CallClock(c: Ctl, call: Call)
    requires Standing(c) && LegalCall(c, call) && !call.Cancel? && !call.Acknowledge?
    ensures KeepsClock(c, Make(c, call))
  {
    hide ApplyOps, SetNotes, UndoCall, RedoCall, FinishMaster, OpenMaster, KeepsClock, Stands, SelectObjects, SetTextRange;
    match call
    case Apply(ops) => ApplyOpsClock(c, ops, false);
    case Notes(slide, notes, word) => SetNotesClock(c, slide, notes, word);
    case UndoKey => StepsClock(c);
    case RedoKey => StepsClock(c);
    case EditMaster(slide) => OpenClock(c, slide);
    case Done => FinishClock(c);
    case _ => SelectionClock(c, call);
  }

  lemma SelectionClock(c: Ctl, call: Call)
    requires call.Select? || call.SelectText? || call.BeginText? || call.EndText?
    ensures KeepsClock(c, Make(c, call))
  {
    hide StillThere, RangeFits, FirstOf, MasterPos;
  }

  /** Cancel turns the deck back without moving the clock: the clock stays
      right exactly when there was nothing to turn back, or no save took or
      wrote the deck of this revision. */
  lemma CancelClock(d: Desk)
    requires Clocked(d) && d.ctl.master.Some?
    ensures Clocked(Perform(d, MakeCall(Cancel))) <==> MasterUntouched(d.ctl) || Unsaved(d)
  {
    hide Repaired, EditedMaster;
    var c := d.ctl;
    var t := CancelMaster(c).0;
    var after := Perform(d, MakeCall(Cancel));
    assert DeckOf(t) == Doc(c.master.value.slides, c.doc.masters);
    assert Same(DeckOf(t), DeckOf(c)) <==> MasterUntouched(c);
    assert forall k :: 0 <= k < |d.staged| ==> CurrentSave(c, d.staged[k]);
    assert Clocked(after) ==> forall k :: 0 <= k < |d.staged| ==> CurrentSave(t, after.staged[k]);
  }

  /** A deck that is clean after a save is the one the save wrote. */
  ghost predicate CleanIsWritten(d: Desk) {
    !d.ctl.dirty && d.ctl.saved.Some? ==> d.written.Some? && Same(d.written.value, DeckOf(d.ctl))
  }

  /** It is, and will be whichever of the saves being written finishes next. */
  ghost predicate CleanStays(d: Desk) {
    CleanIsWritten(d) && forall k :: 0 <= k < |d.staged| ==> CleanIsWritten(Perform(d, Finish(k)))
  }

  lemma ClockedIsClean(d: Desk)
    requires Clocked(d)
    ensures CleanStays(d)
  {
    hide Same, DeckOf;
    forall k | 0 <= k < |d.staged|
      ensures CleanIsWritten(Perform(d, Finish(k)))
    {
      assert CurrentSave(d.ctl, d.staged[k]);
      AcknowledgedDeck(d, k);
    }
  }

  /** What Cancel leaves is the deck put aside under the masters as they were. */
  lemma CancelledDeck(d: Desk)
    requires d.ctl.master.Some?
    ensures var t := Perform(d, MakeCall(Cancel));
            && (Same(DeckOf(t.ctl), DeckOf(d.ctl)) <==> MasterUntouched(d.ctl))
            && t.ctl.revision == d.ctl.revision && t.ctl.dirty == d.ctl.dirty && t.ctl.saved == d.ctl.saved
            && t.staged == d.staged && t.written == d.written
  {
    hide Repaired, EditedMaster;
    var t := CancelMaster(d.ctl).0;
    assert DeckOf(t) == Doc(d.ctl.master.value.slides, d.ctl.doc.masters);
  }

  lemma SameTurned(a: Doc, b: Doc, c: Doc)
    requires Same(a, b)
    ensures Same(a, c) <==> Same(c, b)
  {
  }

  /** Cancel of a changed master while a save of this revision counts leaves a
      clean deck that is not what was saved: at once, or when that save
      finishes. */
  lemma CancelLosesSave(d: Desk)
    requires Clocked(d) && d.ctl.master.Some? && !MasterUntouched(d.ctl) && !Unsaved(d)
    ensures !CleanStays(Perform(d, MakeCall(Cancel)))
  {
    hide Same, DeckOf, MasterUntouched;
    var t := Perform(d, MakeCall(Cancel));
    CancelledDeck(d);
    if !d.ctl.dirty && d.ctl.saved.Some? {
      SameTurned(d.written.value, DeckOf(d.ctl), DeckOf(t.ctl));
    } else {
      var k :| 0 <= k < |d.staged| && d.staged[k].checkpoint == d.ctl.revision;
      assert CurrentSave(d.ctl, d.staged[k]);
      SameTurned(d.staged[k].deck, DeckOf(d.ctl), DeckOf(t.ctl));
      AcknowledgedDeck(t, k);
      assert !CleanIsWritten(Perform(t, Finish(k)));
    }
  }

  /** So after Cancel a clean deck is the one that was saved, now and whichever
      save finishes next, exactly when the master was untouched, or no save
      took or wrote the deck of this revision. */
  lemma CancelExact(d: Desk)
    requires Clocked(d) && d.ctl.master.Some?
    ensures CleanStays(Perform(d, MakeCall(Cancel))) <==> MasterUntouched(d.ctl) || Unsaved(d)
  {
    hide Clocked, CleanStays, Perform, MasterUntouched, Unsaved;
    if MasterUntouched(d.ctl) || Unsaved(d) {
      CancelClock(d);
      ClockedIsClean(Perform(d, MakeCall(Cancel)));
    } else {
      CancelLosesSave(d);
    }
  }

  /** What the acts must keep to: edits that can be undone, and no Cancel of
      a changed master while a save of this revision counts. */
  ghost predicate LegalAct(d: Desk, act: Act) {
    && (act.MakeCall? ==> LegalCall(d.ctl, act.call) && !act.call.Acknowledge?)
    && (act.MakeCall? && act.call.Cancel? && d.ctl.master.Some? ==> MasterUntouched(d.ctl) || Unsaved(d))
  }

  lemma SameSelf(doc: Doc)
    ensures Same(doc, doc)
  {
  }

  /** An acknowledgement changes neither the deck nor its line. */
  lemma AcknowledgedDeck(d: Desk, save: nat)
    ensures var t := Perform(d, Finish(save)).ctl;
            DeckOf(t) == DeckOf(d.ctl) && (Standing(d.ctl) ==> Standing(t)) && t.revision == d.ctl.revision
  {
    hide MasterPos, Stands, MasterFreeSteps;
  }

  lemma ActClock(d: Desk, act: Act)
    requires Clocked(d) && Standing(d.ctl) && LegalAct(d, act)
    ensures Clocked(Perform(d, act)) && Standing(Perform(d, act).ctl)
  {
    hide ApplyOps, SetNotes, UndoCall, RedoCall, FinishMaster, OpenMaster, SelectObjects, SetTextRange, Same, DeckOf, Standing, KeepsClock, LegalCall;
    match act
    case MakeCall(call) =>
      CallStanding(d.ctl, call);
      if call.Cancel? {
        if d.ctl.master.Some? {
          CancelClock(d);
        }
      } else {
        CallClock(d.ctl, call);
        KeptClock(d, Make(d.ctl, call));
      }
    case Stage =>
      SameSelf(DeckOf(d.ctl));
      assert forall k :: 0 <= k < |d.staged| ==> CurrentSave(d.ctl, d.staged[k]);
    case Finish(save) =>
      var after := Perform(d, act);
      AcknowledgedDeck(d, save);
      forall k | 0 <= k < |d.staged|
        ensures CurrentSave(after.ctl, d.staged[k])
      {
        assert CurrentSave(d.ctl, d.staged[k]);
      }
  }

  ghost predicate LegalActs(d: Desk, acts: seq<Act>)
    decreases |acts|
  {
    acts == [] || (LegalAct(d, acts[0]) && LegalActs(Perform(d, acts[0]), acts[1..]))
  }

  function Acts(d: Desk, acts: seq<Act>): Desk
    decreases |acts|
  {
    if acts == [] then d else Acts(Perform(d, acts[0]), acts[1..])
  }

  /** For any interleaving of edits, undos, redos, master views, staged saves
      and acknowledgements: a deck that is clean after a save is what the
      acknowledged save wrote. */
  lemma {:induction false} CleanDeckIsWhatWasSaved(d: Desk, acts: seq<Act>)
    requires Clocked(d) && Standing(d.ctl) && LegalActs(d, acts)
    ensures Clocked(Acts(d, acts)) && Standing(Acts(d, acts).ctl)
    decreases |acts|
  {
    if acts != [] {
      ActClock(d, acts[0]);
      CleanDeckIsWhatWasSaved(Perform(d, acts[0]), acts[1..]);
    }
  }

  lemma ApplyOpsForward(c: Ctl, ops: seq<Op>, merged: bool)
    ensures ApplyOps(c, ops, merged).0.revision >= c.revision
  {
    hide ApplyAll, Repaired, Record;
  }

  lemma SetNotesForward(c: Ctl, id: nat, notes: string, word: char -> bool)
    ensures SetNotes(c, id, notes, word).0.revision >= c.revision
  {
    hide ApplyOps, EnsureIds, OneWordCharAdded;
    var slides := EnsureIds(c.doc.slides);
    var i := SlidePos(slides, id);
    if NotesOf(c.doc.slides, id).Some? && i.Some? {
      var typing := OneWordCharAdded(NotesOf(c.doc.slides, id).value, notes, word);
      var marked := c.(steps := c.steps.(merge := typing), doc := c.doc.(slides := slides));
      ApplyOpsForward(marked, [SetSlide(id, slides[i.value].props.(notes := notes))], typing && c.mergeChain);
    }
  }

  lemma StepsForward(c: Ctl)
    ensures UndoCall(c).0.revision >= c.revision && RedoCall(c).0.revision >= c.revision
  {
    hide Undo, Redo, Repaired;
  }

  lemma FinishForward(c: Ctl)
    ensures FinishMaster(c).0.revision >= c.revision
  {
    hide ApplyOps, Repaired, MasterFromSlide;
    if c.master.Some? {
      var e := c.master.value;
      var edited := EditedMaster(c);
      if edited.Some? {
        ApplyOpsForward(Reselect(PutBack(c, e), Single(e.fromSlide)), [SetMaster(e.masterId, edited.value)], false);
      }
    }
  }

  lemma OtherForward(c: Ctl, call: Call)
    requires call.Select? || call.SelectText? || call.BeginText? || call.EndText? || call.EditMaster? || call.Cancel? || call.Acknowledge?
    ensures Make(c, call).revision == c.revision
  {
    hide StillThere, RangeFits, FirstOf, MasterPos, Repaired, EnsureIds;
  }

  /** No act turns the clock back: any call in any state, any acknowledgement. */
  lemma ActForward(d: Desk, act: Act)
    ensures Perform(d, act).ctl.revision >= d.ctl.revision
  {
    hide ApplyOps, SetNotes, UndoCall, RedoCall, FinishMaster, OpenMaster, CancelMaster, SelectObjects, SetTextRange, DeckOf;
    if act.MakeCall? {
      match act.call
      case Apply(ops) => ApplyOpsForward(d.ctl, ops, false);
      case Notes(slide, notes, word) => SetNotesForward(d.ctl, slide, notes, word);
      case UndoKey => StepsForward(d.ctl);
      case RedoKey => StepsForward(d.ctl);
      case Done => FinishForward(d.ctl);
      case _ => OtherForward(d.ctl, act.call);
    }
  }

  lemma {:induction false} ClockForward(d: Desk, acts: seq<Act>)
    ensures Acts(d, acts).ctl.revision >= d.ctl.revision
    decreases |acts|
  {
    hide Perform;
    if acts != [] {
      ActForward(d, acts[0]);
      ClockForward(Perform(d, acts[0]), acts[1..]);
    }
  }

  /** An acknowledgement that comes after any recorded edit, undo or redo
      since its save was staged leaves the deck to be saved: from any state,
      whatever else is done, cancelled master views included. */
  lemma StaleAcknowledgement(d: Desk, act: Act, acts: seq<Act>)
    requires Perform(d, act).ctl.revision != d.ctl.revision
    ensures var e := Acts(Perform(d, act), acts).ctl; AcknowledgeSave(e, d.ctl.revision) == (e, false)
  {
    hide Perform;
    ActForward(d, act);
    ClockForward(Perform(d, act), acts);
  }
}
