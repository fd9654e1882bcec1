/** Whatever is called, in whatever order, the controller's document stands on
    its history's line of documents, in the deck and in the master view. */
module ControlLine {
  import opened Engine
  import opened Sequences
  import opened Ops
  import opened Numbering
  import opened OpLaws
  import opened GroupLaws
  import opened Inverses
  import opened GroupUndo
  import opened Timeline
  import opened Selecting
  import opened Control

  predicate MasterFree(ops: seq<Op>) {
    forall op :: op in ops ==> !op.SetMaster?
  }

  predicate MasterFreeSteps(h: Steps) {
    (forall k :: 0 <= k < |h.undo| ==> MasterFree(h.undo[k])) && (forall k :: 0 <= k < |h.redo| ==> MasterFree(h.redo[k]))
  }

  /** An edit's ops can be undone where they are applied, and in the master
      view none replaces a master. */
  ghost predicate LegalCall(c: Ctl, call: Call) {
    call.Apply? ==> UndoableAll(c.doc, call.ops) && (c.master.Some? ==> MasterFree(call.ops))
  }

  ghost predicate LegalCalls(c: Ctl, calls: seq<Call>)
    decreases |calls|
  {
    calls == [] || (LegalCall(c, calls[0]) && LegalCalls(Make(c, calls[0]), calls[1..]))
  }

  ghost predicate Stands(h: Steps, doc: Doc) {
    HasLine(Session(h, doc))
  }

  /** The document, and the deck put aside while the master view is open,
      each on its line. */
  ghost predicate Standing(c: Ctl) {
    && Stands(c.steps, c.doc)
    && (c.master.Some? ==>
          && Stands(c.master.value.steps, c.doc.(slides := c.master.value.slides))
          && MasterFreeSteps(c.steps))
  }

  lemma StandsValid(h: Steps, doc: Doc)
    requires Stands(h, doc)
    ensures Valid(doc.slides) && Ready(doc.slides)
  {
    var line :| OnLine(line, h, doc);
  }

  lemma MarkStands(h: Steps, doc: Doc, merge: bool)
    requires Stands(h, doc)
    ensures Stands(h.(merge := merge), doc)
  {
    var line :| OnLine(line, h, doc);
    Remarked(line, h, doc, doc, merge);
  }

  // ---------------------------------------------------------------- ops that leave masters alone

  lemma MasterFreeOp(doc: Doc, op: Op)
    requires !op.SetMaster?
    ensures ApplyDoc(doc, op).doc.masters == doc.masters
    ensures ApplyDoc(doc, op).reply.Ok? ==> MasterFree(ApplyDoc(doc, op).reply.value)
  {
    hide SlidePos, EnsureIds, Bury, Relocate, Remove, Insert, NamesObject, WithoutObject;
  }

  lemma {:induction false} MasterFreeGroup(doc: Doc, ops: seq<Op>)
    requires MasterFree(ops)
    ensures ApplyAll(doc, ops).doc.masters == doc.masters
    ensures ApplyAll(doc, ops).reply.Ok? ==> MasterFree(ApplyAll(doc, ops).reply.value)
    decreases !Short(ops), |ops|
  {
    if ops != [] {
      MasterFreeOp(doc, ops[0]);
      var first := ApplyDoc(doc, ops[0]);
      if first.reply.Ok? {
        MasterFreeGroup(first.doc, ops[1..]);
        var rest := ApplyAll(first.doc, ops[1..]);
        if rest.reply.Err? {
          MasterFreeGroup(rest.doc, first.reply.value);
        }
      }
    }
  }

  lemma MasterFreeRecord(h: Steps, ops: seq<Op>)
    requires MasterFreeSteps(h) && MasterFree(ops)
    ensures MasterFreeSteps(Record(h, ops))
  {
  }

  // ---------------------------------------------------------------- each call

  lemma ApplyOpsFollows(line: seq<Doc>, c: Ctl, ops: seq<Op>, merged: bool) returns (after: seq<Doc>)
    requires OnLine(line, c.steps, c.doc) && UndoableAll(c.doc, ops)
    ensures var t := ApplyOps(c, ops, merged).0; OnLine(after, t.steps, t.doc) && KeptTo(line, after, Past(c.steps, t.steps))
  {
    hide ApplyAll, Repaired, OnLine;
    if ops == [] {
      LineLong(line, c.steps, c.doc);
      after := line;
    } else {
      after := EditEventOnLine(line, Session(c.steps, c.doc), ops, c.steps.merge);
      var t := Do(Session(c.steps, c.doc), EditEvent(ops, c.steps.merge));
      LineValid(after, t.steps, t.doc);
      Remarked(after, t.steps, t.doc, t.doc, c.steps.merge);
    }
  }

  lemma LineValid(line: seq<Doc>, h: Steps, doc: Doc)
    requires OnLine(line, h, doc)
    ensures Valid(doc.slides) && Same(doc, doc)
  {
  }

  lemma LineLong(line: seq<Doc>, h: Steps, doc: Doc)
    requires OnLine(line, h, doc)
    ensures |h.undo| < |line|
  {
  }

  lemma ApplyOpsStands(c: Ctl, ops: seq<Op>, merged: bool)
    requires Stands(c.steps, c.doc) && UndoableAll(c.doc, ops)
    ensures Stands(ApplyOps(c, ops, merged).0.steps, ApplyOps(c, ops, merged).0.doc)
  {
    hide ApplyOps, OnLine;
    var line :| OnLine(line, c.steps, c.doc);
    var after := ApplyOpsFollows(line, c, ops, merged);
  }

  /** New notes are one `SetSlide`; only the word marks differ from applying it. */
  lemma NotesAreOps(c: Ctl, id: nat, notes: string, word: char -> bool) returns (ops: seq<Op>)
    requires Ready(c.doc.slides) && NotesOf(c.doc.slides, id).Some? && NotesOf(c.doc.slides, id).value != notes
    ensures UndoableAll(c.doc, ops) && MasterFree(ops)
    ensures var typing := OneWordCharAdded(NotesOf(c.doc.slides, id).value, notes, word);
            var t := SetNotes(c, id, notes, word).0;
            var u := ApplyOps(c.(steps := c.steps.(merge := typing)), ops, typing && c.mergeChain).0;
            t == u.(steps := t.steps, mergeChain := t.mergeChain) && t.steps == u.steps.(merge := t.steps.merge)
  {
    hide ApplyAll, Repaired, OneWordCharAdded, NextId, Record;
    ReadyStays(c.doc.slides);
    var p := c.doc.slides[SlidePos(c.doc.slides, id).value].props;
    ops := [SetSlide(id, p.(notes := notes))];
    assert UndoableAll(ApplyDoc(c.doc, ops[0]).doc, ops[1..]);
  }

  lemma SetNotesFollows(line: seq<Doc>, c: Ctl, id: nat, notes: string, word: char -> bool) returns (after: seq<Doc>)
    requires OnLine(line, c.steps, c.doc)
    ensures var t := SetNotes(c, id, notes, word).0; OnLine(after, t.steps, t.doc) && KeptTo(line, after, Past(c.steps, t.steps))
  {
    hide ApplyOps, ApplyDoc, OneWordCharAdded, Valid, OnLine;
    LineValid(line, c.steps, c.doc);
    LineLong(line, c.steps, c.doc);
    ValidIsReady(c.doc.slides);
    ReadyStays(c.doc.slides);
    after := line;
    var old' := NotesOf(c.doc.slides, id);
    if old'.Some? {
      var typing := OneWordCharAdded(old'.value, notes, word);
      var marked := c.(steps := c.steps.(merge := typing));
      var p := c.doc.slides[SlidePos(c.doc.slides, id).value].props;
      Remarked(line, c.steps, c.doc, c.doc, typing);
      Remarked(line, c.steps, c.doc, c.doc, false);
      if p.notes != notes {
        var ops := [SetSlide(id, p.(notes := notes))];
        assert UndoableAll(ApplyDoc(c.doc, ops[0]).doc, ops[1..]);
        after := ApplyOpsFollows(line, marked, ops, typing && c.mergeChain);
        var t := ApplyOps(marked, ops, typing && c.mergeChain).0;
        LineValid(after, t.steps, t.doc);
        Remarked(after, t.steps, t.doc, t.doc, false);
      }
    }
  }

  lemma ValidIsReady(slides: seq<Slide>)
    requires Valid(slides)
    ensures Ready(slides)
  {
  }

  lemma StepFollows(line: seq<Doc>, c: Ctl)
    requires OnLine(line, c.steps, c.doc)
    ensures OnLine(line, UndoCall(c).0.steps, UndoCall(c).0.doc) && OnLine(line, RedoCall(c).0.steps, RedoCall(c).0.doc)
  {
    hide Undo, Redo, Repaired, OnLine;
    var after := EventOnLine(line, Session(c.steps, c.doc), UndoEvent);
    var next := EventOnLine(line, Session(c.steps, c.doc), RedoEvent);
  }

  lemma UndoStands(c: Ctl)
    requires Stands(c.steps, c.doc)
    ensures Stands(UndoCall(c).0.steps, UndoCall(c).0.doc)
  {
    hide UndoCall, RedoCall, OnLine;
    var line :| OnLine(line, c.steps, c.doc);
    StepFollows(line, c);
  }

  lemma RedoStands(c: Ctl)
    requires Stands(c.steps, c.doc)
    ensures Stands(RedoCall(c).0.steps, RedoCall(c).0.doc)
  {
    hide UndoCall, RedoCall, OnLine;
    var line :| OnLine(line, c.steps, c.doc);
    StepFollows(line, c);
  }

  /** The stand-in slide is a deck of its own. */
  lemma StandInValid(m: Master)
    ensures Valid(EnsureIds([MasterAsSlide(m)]))
  {
    var s := MasterAsSlide(m);
    var slides := EnsureIds([s]);
    EnsureIdsReady([s]);
    EnsureIdsKeepsAndMintsAbove([s], 0);
    assert slides[0].ids.objects == Fresh(NextId([s]) + 1, |s.objects|) by {
      assert slides[0] == AssignIds(s, NextId([s])).0;
      assert [] + Fresh(NextId([s]) + 1, |s.objects|) == Fresh(NextId([s]) + 1, |s.objects|);
    }
    assert Sound(slides[0]);
  }

  lemma OpenMasterStanding(c: Ctl, slide: nat)
    requires Standing(c)
    ensures Standing(OpenMaster(c, slide).0)
  {
    var (t, open) := OpenMaster(c, slide);
    if open {
      var m := c.doc.masters[MasterPos(c.doc.masters, t.master.value.masterId).value];
      StandInValid(m);
      StartOnLine(t.doc);
      assert OnLine([t.doc], t.steps, t.doc);
      assert c.doc.(slides := c.doc.slides) == c.doc;
    }
  }

  lemma ApplyOpsView(c: Ctl, ops: seq<Op>, merged: bool)
    ensures ApplyOps(c, ops, merged).0.master == c.master
  {
    hide ApplyAll, Repaired, Record;
  }

  lemma FinishStanding(c: Ctl)
    requires Standing(c)
    ensures Standing(FinishMaster(c).0)
  {
    hide ApplyOps, ApplyDoc, Repaired, HasLine, Valid;
    if c.master.Some? {
      var e := c.master.value;
      var t := Reselect(PutBack(c, e), Single(e.fromSlide));
      assert Stands(t.steps, t.doc);
      var edited := EditedMaster(c);
      if edited.Some? {
        var ops := [SetMaster(e.masterId, edited.value)];
        assert UndoableAll(ApplyDoc(t.doc, ops[0]).doc, ops[1..]);
        ApplyOpsStands(t, ops, false);
        ApplyOpsView(t, ops, false);
      }
    }
  }

  /** Nothing of the masters, nor of the deck put aside, has changed. */
  ghost predicate Within(c: Ctl, t: Ctl) {
    t.master == c.master && t.doc.masters == c.doc.masters && MasterFreeSteps(t.steps)
  }

  lemma ApplyOpsWithin(c: Ctl, ops: seq<Op>, merged: bool)
    requires MasterFreeSteps(c.steps) && MasterFree(ops)
    ensures Within(c, ApplyOps(c, ops, merged).0)
  {
    hide ApplyAll, Repaired, Record, MasterFreeSteps, MasterFree;
    MasterFreeGroup(c.doc, ops);
    var reply := ApplyAll(c.doc, ops).reply;
    if reply.Ok? {
      MasterFreeRecord(c.steps, reply.value);
    }
  }

  lemma MarkFree(h: Steps, merge: bool)
    requires MasterFreeSteps(h)
    ensures MasterFreeSteps(h.(merge := merge))
  {
  }

  lemma SetNotesWithin(c: Ctl, id: nat, notes: string, word: char -> bool)
    requires MasterFreeSteps(c.steps) && Ready(c.doc.slides)
    ensures Within(c, SetNotes(c, id, notes, word).0)
  {
    hide ApplyOps, OneWordCharAdded, MasterFreeSteps;
    ReadyStays(c.doc.slides);
    var old' := NotesOf(c.doc.slides, id);
    if old'.Some? {
      var typing := OneWordCharAdded(old'.value, notes, word);
      var marked := c.(steps := c.steps.(merge := typing));
      var p := c.doc.slides[SlidePos(c.doc.slides, id).value].props;
      MarkFree(c.steps, typing);
      MarkFree(c.steps, false);
      ApplyOpsWithin(marked, [SetSlide(id, p.(notes := notes))], typing && c.mergeChain);
      MarkFree(ApplyOps(marked, [SetSlide(id, p.(notes := notes))], typing && c.mergeChain).0.steps, false);
    }
  }

  lemma UndoWithin(c: Ctl)
    requires MasterFreeSteps(c.steps)
    ensures Within(c, UndoCall(c).0)
  {
    hide ApplyAll, Repaired;
    if c.steps.undo != [] {
      MasterFreeGroup(c.doc, Last(c.steps.undo));
    }
  }

  lemma RedoWithin(c: Ctl)
    requires MasterFreeSteps(c.steps)
    ensures Within(c, RedoCall(c).0)
  {
    hide ApplyAll, Repaired;
    if c.steps.redo != [] {
      MasterFreeGroup(c.doc, Last(c.steps.redo));
    }
  }

  /** Inside the master view a call leaves the masters, and so the deck put
      aside, alone. */
  lemma InsideView(c: Ctl, call: Call)
    requires Standing(c) && LegalCall(c, call) && c.master.Some? && !call.Done? && !call.Cancel?
    ensures Within(c, Make(c, call))
  {
    StandsValid(c.steps, c.doc);
    match call
    case Apply(ops) => ApplyOpsWithin(c, ops, false);
    case Notes(slide, notes, word) => SetNotesWithin(c, slide, notes, word);
    case UndoKey => UndoWithin(c);
    case RedoKey => RedoWithin(c);
    case _ =>
  }

  /** Outside Done, Cancel and opening the view, a call follows the line the
      document stands on: undo and redo move along it, an edit keeps it up to
      the cursor, and with the cursor if it adds a step. */
  lemma CallFollows(line: seq<Doc>, c: Ctl, call: Call) returns (after: seq<Doc>)
    requires OnLine(line, c.steps, c.doc) && LegalCall(c, call) && !call.EditMaster? && !call.Done? && !call.Cancel?
    ensures var t := Make(c, call); OnLine(after, t.steps, t.doc) && KeptTo(line, after, Past(c.steps, t.steps))
  {
    hide ApplyOps, SetNotes, OnLine, UndoCall, RedoCall, SelectObjects, SetTextRange;
    LineLong(line, c.steps, c.doc);
    after := line;
    match call
    case Apply(ops) => after := ApplyOpsFollows(line, c, ops, false);
    case Notes(slide, notes, word) => after := SetNotesFollows(line, c, slide, notes, word);
    case UndoKey =>
      StepFollows(line, c);
      LineLong(line, Make(c, call).steps, Make(c, call).doc);
      StepsBounded(line, c, Make(c, call));
    case RedoKey =>
      StepFollows(line, c);
      LineLong(line, Make(c, call).steps, Make(c, call).doc);
      StepsBounded(line, c, Make(c, call));
    case _ => SelectionSteps(c, call);
  }

  lemma StepsBounded(line: seq<Doc>, c: Ctl, t: Ctl)
    requires |c.steps.undo| < |line|
    ensures KeptTo(line, line, Past(c.steps, t.steps))
  {
  }

  lemma SelectionSteps(c: Ctl, call: Call)
    requires call.Select? || call.SelectText? || call.BeginText? || call.EndText? || call.Acknowledge?
    ensures Make(c, call).steps == c.steps && Make(c, call).doc == c.doc
  {
    hide StillThere, RangeFits, FirstOf;
  }

  lemma CallStands(c: Ctl, call: Call)
    requires Standing(c) && LegalCall(c, call) && !call.EditMaster? && !call.Done? && !call.Cancel?
    ensures Stands(Make(c, call).steps, Make(c, call).doc)
  {
    hide Make, OnLine, LegalCall;
    var line :| OnLine(line, c.steps, c.doc);
    var after := CallFollows(line, c, call);
  }

  lemma SetNotesView(c: Ctl, id: nat, notes: string, word: char -> bool)
    ensures SetNotes(c, id, notes, word).0.master == c.master
  {
    hide ApplyOps, EnsureIds, OneWordCharAdded;
    var slides := EnsureIds(c.doc.slides);
    var i := SlidePos(slides, id);
    if NotesOf(c.doc.slides, id).Some? && i.Some? {
      var typing := OneWordCharAdded(NotesOf(c.doc.slides, id).value, notes, word);
      var marked := c.(steps := c.steps.(merge := typing), doc := c.doc.(slides := slides));
      ApplyOpsView(marked, [SetSlide(id, slides[i.value].props.(notes := notes))], typing && c.mergeChain);
    }
  }

  lemma StepView(c: Ctl)
    ensures UndoCall(c).0.master == c.master && RedoCall(c).0.master == c.master
  {
    hide Undo, Redo, Repaired;
  }

  lemma OutsideView(c: Ctl, call: Call)
    requires c.master.None? && !call.EditMaster?
    ensures Make(c, call).master.None?
  {
    hide ApplyOps, SetNotes, UndoCall, RedoCall, SelectObjects, SetTextRange, OpenMaster;
    match call
    case Apply(ops) => ApplyOpsView(c, ops, false);
    case Notes(slide, notes, word) => SetNotesView(c, slide, notes, word);
    case UndoKey => StepView(c);
    case RedoKey => StepView(c);
    case Select(slide, objects, primary, mode) => SelectView(c, slide, objects, primary, mode);
    case SelectText(range) =>
      if Ready(c.doc.slides) {
        SelectTextView(c, range);
      }
    case _ =>
  }

  lemma SelectView(c: Ctl, slide: nat, objects: seq<nat>, primary: Option<nat>, mode: Mode)
    ensures SelectObjects(c, slide, objects, primary, mode).0.master == c.master
  {
  }

  lemma SelectTextView(c: Ctl, range: TextRange)
    requires Ready(c.doc.slides)
    ensures SetTextRange(c, range).0.master == c.master
  {
  }

  lemma CallStanding(c: Ctl, call: Call)
    requires Standing(c) && LegalCall(c, call)
    ensures Standing(Make(c, call))
  {
    match call
    case EditMaster(slide) => OpenMasterStanding(c, slide);
    case Done => FinishStanding(c);
    case Cancel =>
    case _ =>
      CallStands(c, call);
      if c.master.Some? {
        InsideView(c, call);
      } else {
        OutsideView(c, call);
      }
  }

  /** Every sequence of calls keeps the document, and the deck aside in the
      master view, on its line: no stored step ever fails to apply. */
  lemma {:induction false} CallsStanding(c: Ctl, calls: seq<Call>)
    requires Standing(c) && LegalCalls(c, calls)
    ensures Standing(Calls(c, calls))
    decreases |calls|
  {
    if calls != [] {
      CallStanding(c, calls[0]);
      CallsStanding(Make(c, calls[0]), calls[1..]);
    }
  }

  /** So an undo (or redo) that has a step to take takes it. */
  lemma StepsNeverFail(c: Ctl)
    requires Standing(c) && !c.textOpen
    ensures UndoCall(c).1 <==> c.steps.undo != []
    ensures RedoCall(c).1 <==> c.steps.redo != []
  {
    var line :| OnLine(line, c.steps, c.doc);
    if c.steps.undo != [] {
      UndoOnLine(line, c.steps, c.doc);
    }
    if c.steps.redo != [] {
      RedoOnLine(line, c.steps, c.doc);
    }
  }
}
