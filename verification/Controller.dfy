/** The deck controller, its fields updated call by call as `Control` says. */
module Controller {
  import opened Engine
  import opened Sequences
  import opened Ops
  import opened Numbering
  import opened Timeline
  import opened Selecting
  import opened Control
  import Editor

  class DecksController {
    const deck: Editor.DeckDoc
    const history: Editor.History
    var undoSels: seq<Selection>
    var redoSels: seq<Selection>
    var mergeChain: bool
    var masterEdit: Option<MasterEdit>
    var revision: nat
    var saved: Option<nat>
    var dirty: bool
    var selection: Selection
    var textOpen: bool

    /** The session as a value. */
    function State(): Ctl
      reads this, deck, history
    {
      Ctl(deck.Value(), history.Value(), undoSels, redoSels, mergeChain, masterEdit, revision, saved, dirty, selection, textOpen)
    }

    /** A session on a deck just read, its ids given, its first slide current. */
    constructor (slides: seq<Slide>, masters: seq<Master>)
      ensures fresh(deck) && fresh(history)
      ensures State() == NewSession(slides, masters)
    {
      deck := new Editor.DeckDoc(slides, masters);
      history := new Editor.History();
      undoSels, redoSels, mergeChain, masterEdit := [], [], false, None;
      revision, saved, dirty, textOpen := 0, None, false, false;
      selection := NOTHING;
      new;
      deck.EnsureIds();
      EnsureIdsReady(slides);
      if deck.slides != [] {
        selection := Single(deck.slides[0].ids.slide);
      }
    }

    method Reselect(sel: Selection)
      modifies this`selection
      ensures State() == Control.Reselect(old(State()), sel)
    {
      if Ready(deck.slides) {
        selection := Repaired(deck.slides, sel);
      }
    }

    method Touch()
      modifies this`revision, this`dirty, this`mergeChain
      ensures State() == Touched(old(State()))
    {
      revision := revision + 1;
      dirty := true;
      mergeChain := false;
    }

    /** Apply `ops` as one undo step, all or nothing. */
    method ApplyOps(ops: seq<Op>, merged: bool) returns (applied: bool)
      modifies this, deck, history
      ensures (State(), applied) == Control.ApplyOps(old(State()), ops, merged)
    {
      var before := selection;
      if ops == [] {
        return false;
      }
      var inverses := deck.ApplyGroup(ops);
      if inverses.Err? || inverses.value == [] {
        return false;
      }
      history.Record(inverses.value);
      if !merged {
        undoSels := undoSels + [before];
      }
      redoSels := [];
      Touch();
      Reselect(before);
      applied := true;
    }

    /** Set a slide's notes, a typed word as one undo step. */
    method SetNotes(id: nat, notes: string, word: char -> bool) returns (changed: bool)
      modifies this, deck, history
      ensures (State(), changed) == Control.SetNotes(old(State()), id, notes, word)
    {
      hide Control.ApplyOps, OneWordCharAdded, Ops.EnsureIds, SlidePos;
      var at := SlidePos(deck.slides, id);
      if at.None? {
        return false;
      }
      var typing := OneWordCharAdded(deck.slides[at.value].props.notes, notes, word);
      var merged := typing && mergeChain;
      history.SetMerge(typing);
      deck.EnsureIds();
      ghost var marked := State();
      assert marked == old(State()).(steps := old(State()).steps.(merge := typing),
                                     doc := old(State()).doc.(slides := deck.slides));
      var i := SlidePos(deck.slides, id);
      changed := false;
      if i.Some? {
        var old' := deck.slides[i.value].props;
        if old'.notes != notes {
          changed := ApplyOps([SetSlide(id, old'.(notes := notes))], merged);
        }
      }
      if !changed {
        history.SetMerge(false);
        mergeChain := false;
      } else {
        mergeChain := typing;
      }
    }

    method Undo() returns (done: bool)
      modifies this, deck, history
      ensures (State(), done) == UndoCall(old(State()))
    {
      hide Repaired, ApplyAll;
      if textOpen {
        return false;
      }
      var pre := selection;
      done := history.Undo(deck);
      if done {
        redoSels := redoSels + [pre];
        var sel := pre;
        if undoSels != [] {
          sel := undoSels[|undoSels| - 1];
          undoSels := undoSels[..|undoSels| - 1];
        }
        Reselect(sel);
        Touch();
      } else if undoSels != [] {
        undoSels := undoSels[..|undoSels| - 1];
      }
    }

    method Redo() returns (done: bool)
      modifies this, deck, history
      ensures (State(), done) == RedoCall(old(State()))
    {
      hide Repaired, ApplyAll;
      if textOpen {
        return false;
      }
      var pre := selection;
      done := history.Redo(deck);
      if redoSels != [] {
        redoSels := redoSels[..|redoSels| - 1];
      }
      if done {
        undoSels := undoSels + [pre];
        Reselect(pre);
        Touch();
      }
    }

    method SelectObjects(id: nat, objects: seq<nat>, primary: Option<nat>, mode: Mode) returns (there: bool)
      modifies this`selection
      ensures (State(), there) == Control.SelectObjects(old(State()), id, objects, primary, mode)
    {
      var i := SlidePos(deck.slides, id);
      if i.None? {
        return false;
      }
      var kept := StillThere(objects, deck.slides[i.value].ids.objects);
      var first := if primary.Some? && primary.value in kept then primary else FirstOf(kept);
      selection := Selection(Some(id), kept, first, if kept == [] then ObjectMode else mode, None);
      there := true;
    }

    /** Open the master view on the master slide `slide` uses. */
    method EditMaster(slide: nat) returns (ok: bool)
      modifies this, deck, history
      ensures (State(), ok) == OpenMaster(old(State()), slide)
    {
      if masterEdit.Some? || textOpen {
        return false;
      }
      var id := MasterFor(Doc(deck.slides, deck.masters), slide);
      if id.None? || MasterPos(deck.masters, id.value).None? {
        return false;
      }
      var m := deck.masters[MasterPos(deck.masters, id.value).value];
      EnsureIdsReady([MasterAsSlide(m)]);
      var slides := deck.slides;
      deck.slides := [MasterAsSlide(m)];
      deck.EnsureIds();
      var steps := history.Take();
      masterEdit := Some(MasterEdit.MasterEdit(id.value, slides, steps, selection, undoSels, redoSels, mergeChain, slide));
      undoSels, redoSels, mergeChain := [], [], false;
      selection := Single(deck.slides[0].ids.slide);
      ok := true;
    }

    method PutBack(e: MasterEdit)
      modifies this, deck, history
      ensures State() == Control.PutBack(old(State()), e)
    {
      masterEdit := None;
      deck.slides := e.slides;
      history.Put(e.steps);
      undoSels, redoSels, mergeChain := e.undoSels, e.redoSels, e.mergeChain;
    }

    /** Close the master view; its edits become one step of the deck's. */
    method FinishMaster() returns (ok: bool)
      modifies this, deck, history
      ensures (State(), ok) == Control.FinishMaster(old(State()))
    {
      hide Control.ApplyOps, Repaired;
      if masterEdit.None? {
        return false;
      }
      var e := masterEdit.value;
      var at := MasterPos(deck.masters, e.masterId);
      var standIn := deck.slides;
      PutBack(e);
      Reselect(Single(e.fromSlide));
      if standIn != [] && at.Some? {
        var edited := MasterFromSlide(deck.masters[at.value], standIn[0]);
        if edited != deck.masters[at.value] {
          var _ := ApplyOps([SetMaster(e.masterId, edited)], false);
        }
      }
      ok := true;
    }

    /** Close the master view, keeping nothing. */
    method CancelMaster() returns (ok: bool)
      modifies this, deck, history
      ensures (State(), ok) == Control.CancelMaster(old(State()))
    {
      if masterEdit.None? {
        return false;
      }
      var e := masterEdit.value;
      PutBack(e);
      Reselect(e.selection);
      ok := true;
    }

    method AcknowledgeSave(checkpoint: nat) returns (clean: bool)
      modifies this`saved, this`dirty
      ensures (State(), clean) == Control.AcknowledgeSave(old(State()), checkpoint)
    {
      clean := revision == checkpoint;
      if clean {
        saved := Some(revision);
        dirty := false;
      }
    }
  }
}
