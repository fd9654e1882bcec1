/** Undo and redo on a deck changed from outside: a step that no longer fits
    is dropped, alone, with the selection recorded for it. */
module ControlDrops {
  import opened Engine
  import opened Sequences
  import opened Ops
  import opened Numbering
  import opened OpLaws
  import opened GroupLaws
  import opened Inverses
  import opened GroupUndo
  import opened Timeline
  import opened Selecting
  import opened Control
  import opened ControlLine
  import opened ControlStacks

  // ---------------------------------------------------------------- one step

  /** What undo does on any deck: the top step and its selection go; the step
      applied or dropped, everything below them stays. Dropped, nothing else of
      the session changes but the deck, and that by tombstones only if the step
      was one that can be undone. */
  lemma UndoTakesOne(c: Ctl)
    requires Matched(c) && !c.textOpen && c.steps.undo != []
    ensures var (t, done) := UndoCall(c);
            && t.steps.undo == Init(c.steps.undo) && t.undoSels == Init(c.undoSels) && Matched(t)
            && (done <==> ApplyAll(c.doc, Last(c.steps.undo)).reply.Ok?)
            && (done ==> t.redoSels == c.redoSels + [c.selection] && Init(t.steps.redo) == c.steps.redo
                         && t.doc == ApplyAll(c.doc, Last(c.steps.undo)).doc
                         && (Ready(t.doc.slides) ==> t.selection == Repaired(t.doc.slides, Last(c.undoSels))))
            && (!done ==> t == c.(steps := t.steps, undoSels := t.undoSels, doc := t.doc) && t.steps.redo == c.steps.redo)
  {
    hide ApplyAll, Repaired;
  }

  /** And what redo does. */
  lemma RedoTakesOne(c: Ctl)
    requires Matched(c) && !c.textOpen && c.steps.redo != []
    ensures var (t, done) := RedoCall(c);
            && t.steps.redo == Init(c.steps.redo) && t.redoSels == Init(c.redoSels) && Matched(t)
            && (done <==> ApplyAll(c.doc, Last(c.steps.redo)).reply.Ok?)
            && (done ==> t.undoSels == c.undoSels + [c.selection] && Init(t.steps.undo) == c.steps.undo
                         && t.doc == ApplyAll(c.doc, Last(c.steps.redo)).doc
                         && (Ready(t.doc.slides) ==> t.selection == Repaired(t.doc.slides, c.selection)))
            && (!done ==> t == c.(steps := t.steps, redoSels := t.redoSels, doc := t.doc) && t.steps.undo == c.steps.undo)
  {
    hide ApplyAll, Repaired;
  }

  /** A dropped step leaves the deck as it was, up to tombstones. */
  lemma DroppedKeepsDeck(c: Ctl)
    requires Valid(c.doc.slides) && !c.textOpen && c.steps.undo != [] && !UndoCall(c).1
    requires UndoableAll(c.doc, Last(c.steps.undo))
    ensures Same(UndoCall(c).0.doc, c.doc)
  {
    hide ApplyAll, Repaired, UndoableAll;
    FailedGroupRestores(c.doc, Last(c.steps.undo));
  }

  /** Such a step is a move to a place past the slides that are left. */
  lemma MoveNoLongerFits(c: Ctl, slide: nat, to: nat)
    requires Ready(c.doc.slides) && !c.textOpen && c.steps.undo != [] && Last(c.steps.undo) == [MoveSlide(slide, to)]
    ensures UndoCall(c).1 <==> SlidePos(c.doc.slides, slide).None? || to < |c.doc.slides|
  {
    hide Repaired;
    ReadyStays(c.doc.slides);
    One(c.doc, MoveSlide(slide, to));
  }

  // ---------------------------------------------------------------- runs with changes from outside

  /** A call, or the deck changed by no call of this session. */
  datatype Turn = By(call: Call) | Outside(doc: Doc)

  function Take(c: Ctl, turn: Turn): Ctl {
    match turn
    case By(call) => Make(c, call)
    case Outside(doc) => c.(doc := doc)
  }

  function Turns(c: Ctl, turns: seq<Turn>): Ctl
    decreases |turns|
  {
    if turns == [] then c else Turns(Take(c, turns[0]), turns[1..])
  }

  ghost predicate FitOps(ops: seq<Op>) {
    forall op :: op in ops ==> Fits(op)
  }

  /** No op brings a slide with one object twice; no deck has one. */
  ghost predicate LegalTurn(turn: Turn) {
    match turn
    case By(call) => call.Apply? ==> FitOps(call.ops)
    case Outside(doc) => Valid(doc.slides)
  }

  ghost predicate LegalTurns(turns: seq<Turn>) {
    forall k :: 0 <= k < |turns| ==> LegalTurn(turns[k])
  }

  ghost predicate DisciplinedTurns(c: Ctl, turns: seq<Turn>)
    decreases |turns|
  {
    turns == [] || ((turns[0].By? ==> Disciplined(c, turns[0].call)) && DisciplinedTurns(Take(c, turns[0]), turns[1..]))
  }

  ghost predicate FitSteps(h: Steps) {
    && (forall k :: 0 <= k < |h.undo| ==> FitOps(h.undo[k]))
    && (forall k :: 0 <= k < |h.redo| ==> FitOps(h.redo[k]))
  }

  /** The decks are valid, and no stored step would make them otherwise. */
  ghost predicate Sturdy(c: Ctl) {
    && Valid(c.doc.slides) && FitSteps(c.steps)
    && (c.master.Some? ==> Valid(c.master.value.slides) && FitSteps(c.master.value.steps))
  }

  lemma InverseFits(doc: Doc, op: Op)
    requires Valid(doc.slides) && ApplyDoc(doc, op).reply.Ok?
    ensures FitOps(ApplyDoc(doc, op).reply.value)
  {
    hide Edit, Bury, Remove, Insert, Relocate, Inserted;
    ReadyStays(doc.slides);
    if OnOneSlide(op) {
      OneSlideIs(doc.slides, op);
      var i := SlidePos(doc.slides, op.slide);
      if i.Some? {
        EditFits(doc.slides[i.value], op);
      }
    } else if op.DeleteSlide? {
      var i := SlidePos(doc.slides, op.slide);
      assert i.Some? ==> Sound(doc.slides[i.value]);
    }
  }

  lemma EditFits(s: Slide, op: Op)
    requires OnOneSlide(op) && |s.ids.objects| == |s.objects| && Edit(s, op).1.Ok?
    ensures FitOps(Edit(s, op).1.value)
  {
  }

  /** A group, applied or rolled back, keeps the deck valid, and its inverse
      would too. */
  lemma {:induction false} GroupFits(doc: Doc, ops: seq<Op>)
    requires Valid(doc.slides) && FitOps(ops)
    ensures var o := ApplyAll(doc, ops); Valid(o.doc.slides) && (o.reply.Ok? ==> FitOps(o.reply.value))
    decreases !Short(ops), |ops|
  {
    hide ApplyDoc, Valid, Fits;
    if ops != [] {
      assert ops[0] in ops && forall op :: op in ops[1..] ==> op in ops;
      DocAfter(doc, ops[0]);
      var first := ApplyDoc(doc, ops[0]);
      if first.reply.Ok? {
        InverseFits(doc, ops[0]);
        GroupFits(first.doc, ops[1..]);
        var rest := ApplyAll(first.doc, ops[1..]);
        if rest.reply.Err? {
          GroupFits(rest.doc, first.reply.value);
        }
      }
    }
  }

  lemma RecordFits(h: Steps, ops: seq<Op>)
    requires FitSteps(h) && FitOps(ops)
    ensures FitSteps(Record(h, ops))
  {
    hide FitOps;
  }

  lemma ApplyOpsSturdy(c: Ctl, ops: seq<Op>, merged: bool)
    requires Sturdy(c) && FitOps(ops)
    ensures Sturdy(ApplyOps(c, ops, merged).0)
  {
    hide ApplyAll, Repaired, Record, FitOps, Valid;
    GroupFits(c.doc, ops);
    var o := ApplyAll(c.doc, ops);
    if o.reply.Ok? {
      RecordFits(c.steps, o.reply.value);
    }
  }

  lemma NotesSturdy(c: Ctl, id: nat, notes: string, word: char -> bool)
    requires Sturdy(c)
    ensures Sturdy(SetNotes(c, id, notes, word).0)
  {
    hide ApplyOps, OneWordCharAdded, Valid;
    var old' := NotesOf(c.doc.slides, id);
    ReadySlides(c.doc.slides);
    var i := SlidePos(c.doc.slides, id);
    if old'.Some? && i.Some? {
      var typing := OneWordCharAdded(old'.value, notes, word);
      var marked := c.(steps := c.steps.(merge := typing));
      var ops := [SetSlide(id, c.doc.slides[i.value].props.(notes := notes))];
      ApplyOpsSturdy(marked, ops, typing && c.mergeChain);
    }
  }

  lemma ReadySlides(slides: seq<Slide>)
    requires Valid(slides)
    ensures EnsureIds(slides) == slides
  {
    ReadyStays(slides);
  }

  lemma StackFits(a: seq<seq<Op>>, b: seq<seq<Op>>, ops: seq<Op>)
    requires forall k :: 0 <= k < |a| ==> FitOps(a[k])
    requires forall k :: 0 <= k < |b| ==> FitOps(b[k])
    ensures a != [] ==> forall k :: 0 <= k < |Init(a)| ==> FitOps(Init(a)[k])
    ensures FitOps(ops) ==> forall k :: 0 <= k < |b + [ops]| ==> FitOps((b + [ops])[k])
  {
    hide FitOps;
  }

  lemma UndoFits(h: Steps, doc: Doc)
    requires Valid(doc.slides) && FitSteps(h)
    ensures var m := Undo(h, doc); Valid(m.doc.slides) && FitSteps(m.steps)
  {
    hide ApplyAll, FitOps, Valid;
    if h.undo != [] {
      GroupFits(doc, Last(h.undo));
      var o := ApplyAll(doc, Last(h.undo));
      StackFits(h.undo, h.redo, if o.reply.Ok? then o.reply.value else []);
    }
  }

  lemma RedoFits(h: Steps, doc: Doc)
    requires Valid(doc.slides) && FitSteps(h)
    ensures var m := Redo(h, doc); Valid(m.doc.slides) && FitSteps(m.steps)
  {
    hide ApplyAll, FitOps, Valid;
    if h.redo != [] {
      GroupFits(doc, Last(h.redo));
      var o := ApplyAll(doc, Last(h.redo));
      StackFits(h.redo, h.undo, if o.reply.Ok? then o.reply.value else []);
    }
  }

  lemma StepsSturdy(c: Ctl)
    requires Sturdy(c)
    ensures Sturdy(UndoCall(c).0) && Sturdy(RedoCall(c).0)
  {
    hide Undo, Redo, Repaired, FitSteps, Valid;
    UndoFits(c.steps, c.doc);
    RedoFits(c.steps, c.doc);
  }

  lemma OpenSturdy(c: Ctl, slide: nat)
    requires Sturdy(c)
    ensures Sturdy(OpenMaster(c, slide).0)
  {
    hide Valid;
    var (t, open) := OpenMaster(c, slide);
    if open {
      StandInValid(c.doc.masters[MasterPos(c.doc.masters, t.master.value.masterId).value]);
    }
  }

  lemma FinishSturdy(c: Ctl)
    requires Sturdy(c)
    ensures Sturdy(FinishMaster(c).0)
  {
    hide ApplyOps, Repaired, Valid, MasterFromSlide;
    if c.master.Some? {
      var e := c.master.value;
      var t := Reselect(PutBack(c, e), Single(e.fromSlide));
      var edited := EditedMaster(c);
      if edited.Some? {
        ApplyOpsSturdy(t, [SetMaster(e.masterId, edited.value)], false);
      }
    }
  }

  lemma OtherSturdy(c: Ctl, call: Call)
    requires Sturdy(c) && !call.Apply? && !call.Notes? && !call.UndoKey? && !call.RedoKey? && !call.EditMaster? && !call.Done?
    ensures Sturdy(Make(c, call))
  {
    hide Valid, FitSteps, Repaired, StillThere, RangeFits;
  }

  lemma TurnSturdy(c: Ctl, turn: Turn)
    requires Sturdy(c) && LegalTurn(turn)
    ensures Sturdy(Take(c, turn))
  {
    hide ApplyOps, SetNotes, UndoCall, RedoCall, FinishMaster, OpenMaster, Valid, FitOps, FitSteps;
    match turn
    case Outside(_) =>
    case By(call) =>
      match call
      case Apply(ops) => ApplyOpsSturdy(c, ops, false);
      case Notes(slide, notes, word) => NotesSturdy(c, slide, notes, word);
      case UndoKey => StepsSturdy(c);
      case RedoKey => StepsSturdy(c);
      case EditMaster(slide) => OpenSturdy(c, slide);
      case Done => FinishSturdy(c);
      case _ => OtherSturdy(c, call);
  }

  lemma TurnInStep(c: Ctl, turn: Turn)
    requires Sturdy(c) && InStep(c)
    ensures InStep(Take(c, turn)) <==> (turn.By? ==> Disciplined(c, turn.call))
  {
    hide Make, Disciplined, Valid, Tight;
    if turn.By? {
      CallInStep(c, turn.call);
    }
  }

  /** Whatever is changed from outside in between, disciplined calls keep one
      selection for each step. */
  lemma {:induction false} TurnsInStep(c: Ctl, turns: seq<Turn>)
    requires Sturdy(c) && InStep(c) && LegalTurns(turns) && DisciplinedTurns(c, turns)
    ensures Sturdy(Turns(c, turns)) && InStep(Turns(c, turns)) && Matched(Turns(c, turns))
    decreases |turns|
  {
    hide Take, Sturdy, InStep, Disciplined, LegalTurn, Matched;
    if turns == [] {
      InStepMatched(c);
    } else {
      assert LegalTurns(turns[1..]);
      TurnSturdy(c, turns[0]);
      TurnInStep(c, turns[0]);
      TurnsInStep(Take(c, turns[0]), turns[1..]);
    }
  }

  // ---------------------------------------------------------------- which step, and which selection

  /** The turns keep at least `k` steps to undo, and stay in one view. */
  ghost predicate Over(c: Ctl, turns: seq<Turn>, k: nat)
    decreases |turns|
  {
    |c.steps.undo| >= k && (turns == [] || (
      && (turns[0].By? ==> var call := turns[0].call; !call.EditMaster? && !call.Done? && !call.Cancel?)
      && Over(Take(c, turns[0]), turns[1..], k)))
  }

  lemma TurnTop(c: Ctl, turn: Turn)
    requires turn.By? ==> !turn.call.EditMaster? && !turn.call.Done? && !turn.call.Cancel?
    ensures TopOnly(c.undoSels, Take(c, turn).undoSels) && TopOnly(c.steps.undo, Take(c, turn).steps.undo)
  {
    hide Make;
    if turn.By? {
      StackTop(c, turn.call);
    }
  }

  lemma TopKeeps<T>(a: seq<T>, b: seq<T>, k: nat)
    requires TopOnly(a, b) && k <= |a| && k <= |b|
    ensures a[..k] == b[..k]
  {
  }

  /** The steps below and their selections stay as they are, dropped steps above
      them or not. */
  lemma {:induction false} BelowStays(c: Ctl, turns: seq<Turn>, k: nat)
    requires Sturdy(c) && InStep(c) && LegalTurns(turns) && DisciplinedTurns(c, turns) && Over(c, turns, k)
    ensures var t := Turns(c, turns);
            && Sturdy(t) && InStep(t) && |t.undoSels| == |t.steps.undo| >= k && |c.undoSels| == |c.steps.undo| >= k
            && t.steps.undo[..k] == c.steps.undo[..k] && t.undoSels[..k] == c.undoSels[..k]
    decreases |turns|
  {
    hide Take, Sturdy, InStep, Disciplined, LegalTurn, Matched, TopOnly;
    InStepMatched(c);
    MatchedLengths(c);
    if turns != [] {
      var next := Take(c, turns[0]);
      assert LegalTurns(turns[1..]);
      TurnSturdy(c, turns[0]);
      TurnInStep(c, turns[0]);
      TurnTop(c, turns[0]);
      BelowStays(next, turns[1..], k);
      TopKeeps(c.steps.undo, next.steps.undo, k);
      TopKeeps(c.undoSels, next.undoSels, k);
    }
  }

  lemma MatchedLengths(c: Ctl)
    requires Matched(c)
    ensures |c.undoSels| == |c.steps.undo|
  {
  }

  /** Come back to a recorded step, after any calls and any changes from
      outside, however many steps above it applied or were dropped: it is that
      very step; undone, it applies if it fits the deck now there, and gives
      back the selection it saw, repaired against the slides then there; and
      if it does not fit it goes, with that selection, and no other. */
  lemma UndoFindsItsSelection(c: Ctl, call: Call, t: Ctl, turns: seq<Turn>, u: Ctl)
    requires Sturdy(c) && InStep(c) && (call.Apply? || call.Notes?) && LegalTurn(By(call)) && Disciplined(c, call)
    requires t == Make(c, call) && |t.steps.undo| == |c.steps.undo| + 1
    requires LegalTurns(turns) && DisciplinedTurns(t, turns) && Over(t, turns, |t.steps.undo|)
    requires u == Turns(t, turns) && |u.steps.undo| == |t.steps.undo| && !u.textOpen
    ensures var step := Last(t.steps.undo);
            var (v, done) := UndoCall(u);
            && u.steps.undo == c.steps.undo + [step] && u.undoSels == c.undoSels + [c.selection]
            && (done <==> ApplyAll(u.doc, step).reply.Ok?)
            && (done ==> v.doc == ApplyAll(u.doc, step).doc && Ready(v.doc.slides)
                         && v.selection == Repaired(v.doc.slides, c.selection))
            && (!done ==> v.selection == u.selection && v.steps.redo == u.steps.redo && v.redoSels == u.redoSels)
            && v.steps.undo == c.steps.undo && v.undoSels == c.undoSels
  {
    hide Make, Sturdy, InStep, Disciplined, LegalTurn, LegalTurns, DisciplinedTurns, Over, Turns, UndoCall, ApplyAll, Repaired;
    SturdyValid(c);
    TurnIs(c, call);
    TurnSturdy(c, By(call));
    TurnInStep(c, By(call));
    RecordedSaw(c, call);
    var k := |t.steps.undo|;
    BelowStays(t, turns, k);
    assert t.steps.undo[..k] == t.steps.undo && u.steps.undo[..k] == u.steps.undo;
    assert t.undoSels[..k] == t.undoSels && u.undoSels[..k] == u.undoSels by {
      InStepMatched(t);
      MatchedLengths(t);
    }
    InStepMatched(u);
    UndoTakesOne(u);
    UndoneReady(u);
    assert Init(c.undoSels + [c.selection]) == c.undoSels && Init(c.steps.undo + [Last(t.steps.undo)]) == c.steps.undo;
  }

  lemma SturdyValid(c: Ctl)
    requires Sturdy(c)
    ensures Valid(c.doc.slides) && Ready(c.doc.slides)
  {
  }

  lemma TurnIs(c: Ctl, call: Call)
    ensures Take(c, By(call)) == Make(c, call)
  {
  }

  lemma UndoneReady(c: Ctl)
    requires Sturdy(c)
    ensures Ready(UndoCall(c).0.doc.slides)
  {
    hide Sturdy, UndoCall;
    StepsSturdy(c);
    SturdyValid(UndoCall(c).0);
  }

  // ---------------------------------------------------------------- one undo after another

  function Undos(c: Ctl, n: nat): Ctl {
    if n == 0 then c else UndoCall(Undos(c, n - 1)).0
  }

  /** `n` undos in a row, each step applied or dropped: the steps below and their
      selections are left; and the last, if it applied, gave back the selection
      recorded at its depth, repaired, no matter how many were dropped before. */
  lemma {:induction false} UndosInARow(c: Ctl, n: nat)
    requires Sturdy(c) && Matched(c) && !c.textOpen && 0 < n <= |c.steps.undo|
    ensures var t, last := Undos(c, n), UndoCall(Undos(c, n - 1)).1;
            var k := |c.steps.undo| - n;
            && Sturdy(t) && Matched(t) && !t.textOpen
            && t.steps.undo == c.steps.undo[..k] && t.undoSels == c.undoSels[..k]
            && (last <==> ApplyAll(Undos(c, n - 1).doc, c.steps.undo[k]).reply.Ok?)
            && (last ==> t.selection == Repaired(t.doc.slides, c.undoSels[k]))
            && (!last ==> t.selection == Undos(c, n - 1).selection)
  {
    hide Sturdy, UndoCall, ApplyAll, Repaired, Matched;
    MatchedLengths(c);
    var p := Undos(c, n - 1);
    if n > 1 {
      UndosInARow(c, n - 1);
    } else {
      assert c.steps.undo[..|c.steps.undo|] == c.steps.undo && c.undoSels[..|c.undoSels|] == c.undoSels;
    }
    UndoTakesOne(p);
    StepsSturdy(p);
    UndoneReady(p);
    TextStays(p);
    var k := |c.steps.undo| - n;
    assert Init(c.steps.undo[..k + 1]) == c.steps.undo[..k] && Init(c.undoSels[..k + 1]) == c.undoSels[..k];
  }

  lemma TextStays(c: Ctl)
    ensures UndoCall(c).0.textOpen == c.textOpen
  {
    hide ApplyAll, Repaired;
  }

  /** A new session is such a state. */
  lemma NewIsSturdy(slides: seq<Slide>, masters: seq<Master>)
    requires Valid(EnsureIds(slides))
    ensures Sturdy(NewSession(slides, masters)) && InStep(NewSession(slides, masters))
  {
    hide Ops.EnsureIds, Valid;
  }
}
