/** Sessions from the start: what the calls keep holds of a new session, so in
    every state one reaches. */
module ControlSessions {
  import opened Engine
  import opened Sequences
  import opened Ops
  import opened Numbering
  import opened GroupLaws
  import opened GroupUndo
  import opened Inverses
  import opened Timeline
  import opened Selecting
  import opened Control
  import opened ControlLine
  import opened ControlStacks
  import opened ControlView
  import opened ControlSaves

  /** A new session, on a deck with a slide at least and, once numbered, no id
      twice, is where every run of calls may begin. */
  lemma NewSessionHolds(slides: seq<Slide>, masters: seq<Master>)
    requires Valid(EnsureIds(slides))
    ensures var c := NewSession(slides, masters);
            Standing(c) && InStep(c) && LiveSelection(c) && Clocked(Desk(c, [], None))
  {
    hide Ops.EnsureIds;
    var c := NewSession(slides, masters);
    StartOnLine(c.doc);
    assert OnLine([c.doc], c.steps, c.doc);
    FirstIsCurrent(c.doc.slides);
  }

  lemma FirstIsCurrent(slides: seq<Slide>)
    requires Valid(slides)
    ensures Ready(slides) && Repaired(slides, Single(slides[0].ids.slide)) == Single(slides[0].ids.slide)
  {
    PosIs(slides, 0);
  }

  /** Every deck without ids makes a session, empty ones apart. */
  lemma BlankIsValid(slides: seq<Slide>)
    requires slides != [] && forall i :: 0 <= i < |slides| ==> slides[i].ids == SlideIds(0, [], [])
    ensures Valid(EnsureIds(slides))
  {
    EnsureIdsReady(slides);
    BlankFrom(slides, NextId(slides));
  }

  lemma {:induction false} BlankFrom(slides: seq<Slide>, next: nat)
    requires next > 0 && forall i :: 0 <= i < |slides| ==> slides[i].ids == SlideIds(0, [], [])
    ensures var after := EnsureFrom(slides, next);
            && |after| == |slides| && NoDup(SlideIdsOf(after))
            && forall i :: 0 <= i < |after| ==> Sound(after[i]) && after[i].ids.slide >= next
  {
    if slides != [] {
      var (s, n) := AssignIds(slides[0], next);
      assert s.ids.objects == Fresh(next + 1, |slides[0].objects|) by {
        assert [] + Fresh(next + 1, |slides[0].objects|) == Fresh(next + 1, |slides[0].objects|);
      }
      BlankFrom(slides[1..], n);
      var rest := EnsureFrom(slides[1..], n);
      assert EnsureFrom(slides, next) == [s] + rest;
      assert SlideIdsOf([s] + rest) == [s.ids.slide] + SlideIdsOf(rest);
      assert forall i :: 0 <= i < |rest| ==> SlideIdsOf(rest)[i] >= n;
    }
  }

  lemma {:induction false} CallsSettle(c: Ctl, calls: seq<Call>)
    requires LiveSelection(c) && Standing(c) && LegalCalls(c, calls)
    ensures LiveSelection(Calls(c, calls)) && Standing(Calls(c, calls))
    decreases |calls|
  {
    hide Make, LiveSelection, Standing, LegalCall;
    if calls != [] {
      CallSettles(c, calls[0]);
      CallStanding(c, calls[0]);
      CallsSettle(Make(c, calls[0]), calls[1..]);
    }
  }

  /** Whatever is called from a new session on: the document stands on its
      history's line, no stored step fails, and the selection is a fixpoint of
      its repair. */
  lemma SessionsStand(slides: seq<Slide>, masters: seq<Master>, calls: seq<Call>)
    requires Valid(EnsureIds(slides)) && LegalCalls(NewSession(slides, masters), calls)
    ensures var c := Calls(NewSession(slides, masters), calls);
            && Standing(c) && LiveSelection(c)
            && (!c.textOpen ==> (UndoCall(c).1 <==> c.steps.undo != []) && (RedoCall(c).1 <==> c.steps.redo != []))
  {
    hide Make, LiveSelection, Standing, LegalCall, UndoCall, RedoCall, NewSession;
    var c := NewSession(slides, masters);
    NewSessionHolds(slides, masters);
    CallsSettle(c, calls);
    if !Calls(c, calls).textOpen {
      StepsNeverFail(Calls(c, calls));
    }
  }

  /** And as long as the calls are disciplined, each step has its selection. */
  lemma SessionsMatch(slides: seq<Slide>, masters: seq<Master>, calls: seq<Call>)
    requires var c := NewSession(slides, masters);
             Valid(EnsureIds(slides)) && LegalCalls(c, calls) && DisciplinedCalls(c, calls)
    ensures Matched(Calls(NewSession(slides, masters), calls))
  {
    hide Make, Standing, LegalCall, NewSession, Disciplined;
    NewSessionHolds(slides, masters);
    CallsInStep(NewSession(slides, masters), calls);
    InStepMatched(Calls(NewSession(slides, masters), calls));
  }

  /** With saves staged and acknowledged in between: a deck that is clean
      after a save is what the acknowledged save wrote. */
  lemma SessionsSave(slides: seq<Slide>, masters: seq<Master>, acts: seq<Act>)
    requires Valid(EnsureIds(slides)) && LegalActs(Desk(NewSession(slides, masters), [], None), acts)
    ensures var d := Acts(Desk(NewSession(slides, masters), [], None), acts);
            !d.ctl.dirty && d.ctl.saved.Some? ==> d.written.Some? && Same(d.written.value, DeckOf(d.ctl))
  {
    hide Perform, Standing, LegalAct, NewSession, CurrentSave, DeckOf, Same;
    NewSessionHolds(slides, masters);
    CleanDeckIsWhatWasSaved(Desk(NewSession(slides, masters), [], None), acts);
  }

  /** The acts that lose a save: the master opened from slide `slide`, its
      background changed, a save staged and finished, and Cancel. */
  function LosingActs(slide: nat, stand: Slide, background: string): seq<Act> {
    [MakeCall(EditMaster(slide)),
     MakeCall(Apply([SetSlide(stand.ids.slide, stand.props.(background := background))])),
     Stage,
     Finish(0),
     MakeCall(Cancel)]
  }

  /** The master put on its stand-in, and the stand-in's background changed. */
  lemma MasterPainted(c: Ctl, slide: nat, background: string)
    requires Valid(c.doc.slides) && OpenMaster(c, slide).1
    requires var stand := OpenMaster(c, slide).0.doc.slides[0]; background != stand.props.background
    ensures var v := OpenMaster(c, slide).0;
            var stand := v.doc.slides[0];
            var t := Make(v, Apply([SetSlide(stand.ids.slide, stand.props.(background := background))]));
            && t.master == v.master && t.master.Some? && t.doc.masters == c.doc.masters && t.revision == c.revision + 1
            && !MasterUntouched(t)
  {
    hide Repaired;
    var v := OpenMaster(c, slide).0;
    var at := MasterPos(c.doc.masters, v.master.value.masterId).value;
    EnsureIdsReady([MasterAsSlide(c.doc.masters[at])]);
    var stand := v.doc.slides[0];
    assert SlideIdsOf(v.doc.slides) == [stand.ids.slide];
    StandInValid(c.doc.masters[at]);
    var props := stand.props.(background := background);
    PosIs(v.doc.slides, 0);
    SetSlideOne(v.doc, stand.ids.slide, props);
    EnsureIdsKeepsAndMintsAbove([MasterAsSlide(c.doc.masters[at])], 0);
    assert DeckOf(Make(v, Apply([SetSlide(stand.ids.slide, props)]))).masters[at].background == background;
  }

  /** It happens in any new session whose master view opens: five acts end with
      a deck marked clean that is not the one that was saved. */
  lemma SessionLosesSave(slides: seq<Slide>, masters: seq<Master>, slide: nat, background: string)
    requires Valid(EnsureIds(slides)) && OpenMaster(NewSession(slides, masters), slide).1
    requires background != OpenMaster(NewSession(slides, masters), slide).0.doc.slides[0].props.background
    ensures var c := NewSession(slides, masters);
            var acts := LosingActs(slide, OpenMaster(c, slide).0.doc.slides[0], background);
            !CleanIsWritten(Acts(Desk(c, [], None), acts))
  {
    hide Perform, OpenMaster, NewSession, CleanIsWritten, Make, Valid;
    var c := NewSession(slides, masters);
    var start := Desk(c, [], None);
    var acts := LosingActs(slide, OpenMaster(c, slide).0.doc.slides[0], background);
    SessionValid(slides, masters);
    MasterPainted(c, slide, background);
    OpenedThenEdited(start, slide, acts[1]);
    SavedThenCancelled(Perform(Perform(start, acts[0]), acts[1]));
    FiveActs(start, acts[0], acts[1], acts[2], acts[3], acts[4]);
  }

  lemma SessionValid(slides: seq<Slide>, masters: seq<Master>)
    requires Valid(EnsureIds(slides))
    ensures Valid(NewSession(slides, masters).doc.slides)
  {
  }

  lemma OpenedThenEdited(d: Desk, slide: nat, edit: Act)
    requires edit.MakeCall?
    ensures Perform(Perform(d, MakeCall(EditMaster(slide))), edit) == d.(ctl := Make(OpenMaster(d.ctl, slide).0, edit.call))
  {
    hide OpenMaster;
    assert Make(d.ctl, EditMaster(slide)) == OpenMaster(d.ctl, slide).0;
  }

  /** A changed master staged, saved and cancelled. */
  lemma SavedThenCancelled(d: Desk)
    requires d.staged == [] && d.ctl.master.Some? && !MasterUntouched(d.ctl)
    ensures !CleanIsWritten(Perform(Perform(Perform(d, Stage), Finish(0)), MakeCall(Cancel)))
  {
    hide Same, DeckOf, CancelMaster;
    var saved := Perform(Perform(d, Stage), Finish(0));
    AcknowledgedDeck(Perform(d, Stage), 0);
    CancelledDeck(saved);
    assert Same(DeckOf(saved.ctl), DeckOf(Perform(saved, MakeCall(Cancel)).ctl)) <==>
           Same(DeckOf(Perform(saved, MakeCall(Cancel)).ctl), DeckOf(saved.ctl)) by {
      SameEither(DeckOf(saved.ctl), DeckOf(Perform(saved, MakeCall(Cancel)).ctl));
    }
  }

  lemma SameEither(a: Doc, b: Doc)
    ensures Same(a, b) <==> Same(b, a)
  {
  }

  lemma FiveActs(d: Desk, a: Act, b: Act, c: Act, e: Act, f: Act)
    ensures Acts(d, [a, b, c, e, f]) == Perform(Perform(Perform(Perform(Perform(d, a), b), c), e), f)
  {
    hide Perform;
    var two := Perform(Perform(d, a), b);
    var four := Perform(Perform(two, c), e);
    assert [a, b, c, e, f][1..] == [b, c, e, f] && [b, c, e, f][1..] == [c, e, f];
    assert [c, e, f][1..] == [e, f] && [e, f][1..] == [f] && [f][1..] == [];
    assert Acts(d, [a, b, c, e, f]) == Acts(two, [c, e, f]);
    assert Acts(two, [c, e, f]) == Acts(four, [f]);
    assert Acts(four, [f]) == Perform(four, f);
  }
}
