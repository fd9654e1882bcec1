/** The master view as a bracket: what Cancel and Done leave behind. */
module ControlView {
  import opened Engine
  import opened Sequences
  import opened Ops
  import opened Numbering
  import opened OpLaws
  import opened GroupLaws
  import opened Inverses
  import opened GroupUndo
  import opened Timeline
  import opened Selecting
  import opened Control
  import opened ControlLine
  import opened ControlStacks

  /** Calls that neither open nor close the master view. */
  predicate StayInView(calls: seq<Call>) {
    forall i :: 0 <= i < |calls| ==> !calls[i].EditMaster? && !calls[i].Done? && !calls[i].Cancel?
  }

  /** Nothing done inside the view touches the masters or what was put aside. */
  lemma {:induction false} CallsInsideView(c: Ctl, calls: seq<Call>)
    requires Standing(c) && c.master.Some? && LegalCalls(c, calls) && StayInView(calls)
    ensures Standing(Calls(c, calls))
    ensures Calls(c, calls).master == c.master && Calls(c, calls).doc.masters == c.doc.masters
    decreases |calls|
  {
    if calls != [] {
      CallStanding(c, calls[0]);
      InsideView(c, calls[0]);
      CallsInsideView(Make(c, calls[0]), calls[1..]);
    }
  }

  /** For any edits, undos and redos inside the view, Cancel gives the
      slides, masters, history, both selection stacks and the selection back
      exactly, tombstones and all. */
  lemma CancelRestores(c: Ctl, slide: nat, calls: seq<Call>)
    requires Standing(c) && LiveSelection(c) && OpenMaster(c, slide).1
    requires LegalCalls(OpenMaster(c, slide).0, calls) && StayInView(calls)
    ensures var t := CancelMaster(Calls(OpenMaster(c, slide).0, calls)).0;
            && t.doc == c.doc && t.steps == c.steps && t.mergeChain == c.mergeChain
            && t.undoSels == c.undoSels && t.redoSels == c.redoSels
            && t.selection == c.selection && t.master.None?
  {
    var inside := OpenMaster(c, slide).0;
    OpenMasterStanding(c, slide);
    CallsInsideView(inside, calls);
  }

  /** Done changes nothing a save would write: the deck saved just before it
      is the deck just after. */
  lemma DoneKeepsDeck(c: Ctl)
    requires c.master.Some?
    ensures DeckOf(FinishMaster(c).0) == DeckOf(c)
  {
    hide ApplyAll, Repaired, Record, Ops.Apply;
    var e := c.master.value;
    var edited := EditedMaster(c);
    var t := Reselect(PutBack(c, e), Single(e.fromSlide));
    if edited.Some? {
      var at := MasterPos(c.doc.masters, e.masterId).value;
      var op := SetMaster(e.masterId, edited.value);
      One(t.doc, op);
      assert edited.value.(id := e.masterId) == edited.value;
      if c.doc.masters[at] == edited.value {
        assert c.doc.masters[at := edited.value] == c.doc.masters;
      }
    }
  }

  /** Done records the edit as one step if it changed the master, and none if
      it did not; what was put aside comes back under it. */
  lemma DoneIsOneStep(c: Ctl)
    requires c.master.Some? && InStep(c)
    ensures var e := c.master.value;
            var t := FinishMaster(c).0;
            if DeckOf(c).masters == c.doc.masters
            then t.steps == e.steps && t.undoSels == e.undoSels && t.doc == Doc(e.slides, c.doc.masters) && t.revision == c.revision
            else |t.steps.undo| == |e.steps.undo| + 1 && Init(t.steps.undo) == e.steps.undo && t.steps.redo == []
                 && |t.undoSels| == |t.steps.undo| && t.revision == c.revision + 1
  {
    hide ApplyAll, Ops.Apply, Repaired;
    var e := c.master.value;
    var edited := EditedMaster(c);
    var t := Reselect(PutBack(c, e), Single(e.fromSlide));
    if edited.Some? {
      var at := MasterPos(c.doc.masters, e.masterId).value;
      One(t.doc, SetMaster(e.masterId, edited.value));
      assert c.doc.masters[at := edited.value][at] == edited.value;
      if c.doc.masters[at] == edited.value {
        assert c.doc.masters[at := edited.value] == c.doc.masters;
      }
    }
  }

  /** Undoing that step restores the old master, and the deck as it was put
      aside. */
  lemma UndoneDoneRestores(c: Ctl)
    requires Standing(c) && c.master.Some? && InStep(c) && !c.textOpen
    requires DeckOf(c).masters != c.doc.masters
    ensures var u := UndoCall(FinishMaster(c).0);
            u.1 && Same(u.0.doc, Doc(c.master.value.slides, c.doc.masters))
  {
    hide ApplyAll, Repaired;
    var e := c.master.value;
    var doc := Doc(e.slides, c.doc.masters);
    var edited := EditedMaster(c).value;
    var t := Reselect(PutBack(c, e), Single(e.fromSlide));
    var ops := [SetMaster(e.masterId, edited)];
    DoneIsOneStep(c);
    assert t.doc == doc;
    StandsValid(e.steps, c.doc.(slides := e.slides));
    One(doc, ops[0]);
    assert UndoableAll(ApplyDoc(doc, ops[0]).doc, ops[1..]);
    GroupRestores(doc, ops);
  }
}
