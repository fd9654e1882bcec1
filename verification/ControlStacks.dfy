/** The selection stacks beside the history, and the owned selection. */
module ControlStacks {
  import opened Engine
  import opened Sequences
  import opened Ops
  import opened Numbering
  import opened OpLaws
  import opened GroupLaws
  import opened Inverses
  import opened GroupUndo
  import opened Timeline
  import opened Selecting
  import opened Control
  import opened ControlLine

  /** One selection per step, and the controller's word flag the history's. */
  predicate Tight(h: Steps, undoSels: seq<Selection>, redoSels: seq<Selection>, chain: bool) {
    && |undoSels| == |h.undo|
    && |redoSels| == |h.redo|
    && !h.merge
    && (chain <==> h.word)
    && (h.word ==> h.redo == [] && h.undo != [] && |Last(h.undo)| == 1 && Last(h.undo)[0].SetSlide?)
  }

  predicate InStep(c: Ctl) {
    && Tight(c.steps, c.undoSels, c.redoSels, c.mergeChain)
    && (c.master.Some? ==>
          var e := c.master.value; Tight(e.steps, e.undoSels, e.redoSels, e.mergeChain))
  }

  /** While a word is being typed: no key on another slide's notes, no notes
      set to what they already are, and no redo. */
  predicate Disciplined(c: Ctl, call: Call) {
    match call
    case Notes(slide, notes, word) =>
      var old' := NotesOf(c.doc.slides, slide);
      old'.Some? && c.mergeChain ==>
        && old'.value != notes
        && (OneWordCharAdded(old'.value, notes, word) ==> c.steps.undo != [] && WordOn(c.steps, slide))
    case RedoKey => c.textOpen || !c.mergeChain
    case _ => true
  }

  /** The word being typed is in slide `slide`'s notes. */
  predicate WordOn(h: Steps, slide: nat)
    requires h.undo != []
  {
    |Last(h.undo)| == 1 && Last(h.undo)[0].SetSlide? && Last(h.undo)[0].slide == slide
  }

  lemma ApplyOpsInStep(c: Ctl, ops: seq<Op>)
    requires Tight(c.steps, c.undoSels, c.redoSels, c.mergeChain)
    ensures var t := ApplyOps(c, ops, false).0; Tight(t.steps, t.undoSels, t.redoSels, t.mergeChain)
  {
    hide ApplyAll, Repaired;
  }

  /** What setting a slide's notes to something else comes to. */
  lemma NotesChanged(c: Ctl, id: nat, notes: string, word: char -> bool)
    requires Valid(c.doc.slides) && NotesOf(c.doc.slides, id).Some? && NotesOf(c.doc.slides, id).value != notes
    ensures var typing := OneWordCharAdded(NotesOf(c.doc.slides, id).value, notes, word);
            var i := SlidePos(c.doc.slides, id).value;
            var inverse := [SetSlide(id, c.doc.slides[i].props)];
            var t := SetNotes(c, id, notes, word).0;
            && t.steps == Record(c.steps.(merge := typing), inverse)
            && t.undoSels == (if typing && c.mergeChain then c.undoSels else c.undoSels + [c.selection])
            && t.redoSels == [] && t.mergeChain == typing && t.master == c.master
  {
    hide ApplyAll, Repaired, OneWordCharAdded, Record;
    ReadyStays(c.doc.slides);
    var p := c.doc.slides[SlidePos(c.doc.slides, id).value].props;
    SetSlideOne(c.doc, id, p.(notes := notes));
  }

  lemma NotesUnchanged(c: Ctl, id: nat, word: char -> bool)
    requires Valid(c.doc.slides) && NotesOf(c.doc.slides, id).Some?
    ensures var notes := NotesOf(c.doc.slides, id).value;
            SetNotes(c, id, notes, word) == (c.(steps := c.steps.(merge := false), mergeChain := false), false)
  {
    hide ApplyOps, OneWordCharAdded;
    ReadyStays(c.doc.slides);
  }

  lemma NotesMissing(c: Ctl, id: nat, notes: string, word: char -> bool)
    requires NotesOf(c.doc.slides, id).None?
    ensures SetNotes(c, id, notes, word) == (c, false)
  {
  }

  lemma NotesInStep(c: Ctl, id: nat, notes: string, word: char -> bool)
    requires Valid(c.doc.slides) && Tight(c.steps, c.undoSels, c.redoSels, c.mergeChain)
    ensures var t := SetNotes(c, id, notes, word).0;
            Tight(t.steps, t.undoSels, t.redoSels, t.mergeChain) <==> Disciplined(c, Notes(id, notes, word))
  {
    hide SetNotes, OneWordCharAdded, Valid;
    var old' := NotesOf(c.doc.slides, id);
    if old'.Some? {
      if old'.value == notes {
        NotesUnchanged(c, id, word);
      } else {
        NotesChanged(c, id, notes, word);
      }
    } else {
      NotesMissing(c, id, notes, word);
    }
  }

  /** A step that no longer fits is dropped, from the history and from the
      selections alike. (That of an open word always fits.) */
  lemma UndoInStep(c: Ctl)
    requires Tight(c.steps, c.undoSels, c.redoSels, c.mergeChain)
    ensures var t := UndoCall(c).0; Tight(t.steps, t.undoSels, t.redoSels, t.mergeChain)
  {
    hide ApplyAll, Repaired;
  }

  lemma RedoInStep(c: Ctl)
    requires Tight(c.steps, c.undoSels, c.redoSels, c.mergeChain)
    ensures var t := RedoCall(c).0; Tight(t.steps, t.undoSels, t.redoSels, t.mergeChain) <==> Disciplined(c, RedoKey)
  {
    hide ApplyAll, Repaired;
  }

  /** A call keeps the selection stacks in step with the history exactly when
      it is disciplined. */
  lemma CallInStep(c: Ctl, call: Call)
    requires Valid(c.doc.slides) && InStep(c)
    ensures InStep(Make(c, call)) <==> Disciplined(c, call)
  {
    hide ApplyOps, SetNotes, UndoCall, RedoCall, FinishMaster, Valid, Tight;
    match call
    case Apply(ops) =>
      ApplyOpsInStep(c, ops);
      ApplyOpsView(c, ops, false);
    case Notes(slide, notes, word) =>
      NotesInStep(c, slide, notes, word);
      SetNotesView(c, slide, notes, word);
    case UndoKey =>
      UndoInStep(c);
      StepView(c);
    case RedoKey =>
      RedoInStep(c);
      StepView(c);
    case Done => FinishInStep(c);
    case _ => OtherInStep(c, call);
  }

  lemma FinishInStep(c: Ctl)
    requires InStep(c)
    ensures InStep(FinishMaster(c).0)
  {
    hide ApplyOps, Repaired, Tight, MasterAsSlide, MasterFromSlide;
    if c.master.Some? {
      var t := Reselect(PutBack(c, c.master.value), Single(c.master.value.fromSlide));
      if EditedMaster(c).Some? {
        ApplyOpsInStep(t, [SetMaster(c.master.value.masterId, EditedMaster(c).value)]);
        ApplyOpsView(t, [SetMaster(c.master.value.masterId, EditedMaster(c).value)], false);
      }
    }
  }

  lemma OtherInStep(c: Ctl, call: Call)
    requires InStep(c) && !call.Apply? && !call.Notes? && !call.UndoKey? && !call.RedoKey? && !call.Done?
    ensures InStep(Make(c, call))
  {
    hide Repaired, StillThere, EnsureIds, MasterFor, RangeFits;
  }

  ghost predicate DisciplinedCalls(c: Ctl, calls: seq<Call>)
    decreases |calls|
  {
    calls == [] || (Disciplined(c, calls[0]) && DisciplinedCalls(Make(c, calls[0]), calls[1..]))
  }

  /** In every state disciplined calls reach, the stacks have the lengths of
      the history's. */
  lemma {:induction false} CallsInStep(c: Ctl, calls: seq<Call>)
    requires Standing(c) && InStep(c) && LegalCalls(c, calls) && DisciplinedCalls(c, calls)
    ensures Standing(Calls(c, calls)) && InStep(Calls(c, calls))
    decreases |calls|
  {
    if calls != [] {
      StandingValid(c);
      CallStanding(c, calls[0]);
      CallInStep(c, calls[0]);
      CallsInStep(Make(c, calls[0]), calls[1..]);
    }
  }

  // ---------------------------------------------------------------- what the other calls lead to

  /** A key typed in another slide's notes while a word is open records a step
      with no selection: every later undo restores the one before. */
  lemma OtherSlideLosesOne(c: Ctl, id: nat, notes: string, word: char -> bool)
    requires Valid(c.doc.slides) && InStep(c) && c.mergeChain && !WordOn(c.steps, id)
    requires NotesOf(c.doc.slides, id).Some? && OneWordCharAdded(NotesOf(c.doc.slides, id).value, notes, word)
    ensures var t := SetNotes(c, id, notes, word).0; |t.steps.undo| == |t.undoSels| + 1
  {
    NotesChanged(c, id, notes, word);
  }

  /** So does a key typed after a redo that had nothing to redo: the history
      ends the word there, the controller does not. */
  lemma EmptyRedoLosesOne(c: Ctl, id: nat, notes: string, word: char -> bool)
    requires Valid(c.doc.slides) && InStep(c) && c.mergeChain && !c.textOpen
    requires NotesOf(c.doc.slides, id).Some? && OneWordCharAdded(NotesOf(c.doc.slides, id).value, notes, word)
    ensures var t := SetNotes(RedoCall(c).0, id, notes, word).0; |t.steps.undo| == |t.undoSels| + 1
  {
    NotesChanged(RedoCall(c).0, id, notes, word);
  }

  /** And a key typed after some notes were set to what they were leaves one
      selection too many: there the controller ends the word, the history
      does not. */
  lemma SameNotesLeavesOne(c: Ctl, idle: nat, id: nat, notes: string, word: char -> bool, other: char -> bool)
    requires Valid(c.doc.slides) && InStep(c) && c.mergeChain && WordOn(c.steps, id) && NotesOf(c.doc.slides, idle).Some?
    requires NotesOf(c.doc.slides, id).Some? && OneWordCharAdded(NotesOf(c.doc.slides, id).value, notes, word)
    ensures var same := SetNotes(c, idle, NotesOf(c.doc.slides, idle).value, other).0;
            var t := SetNotes(same, id, notes, word).0; |t.undoSels| == |t.steps.undo| + 1
  {
    NotesUnchanged(c, idle, other);
    var same := SetNotes(c, idle, NotesOf(c.doc.slides, idle).value, other).0;
    NotesChanged(same, id, notes, word);
  }

  /** As many selections as steps, in the deck and in the deck put aside. */
  predicate Matched(c: Ctl) {
    && |c.undoSels| == |c.steps.undo| && |c.redoSels| == |c.steps.redo|
    && (c.master.Some? ==>
          var e := c.master.value; |e.undoSels| == |e.steps.undo| && |e.redoSels| == |e.steps.redo|)
  }

  /** Character `x` typed at the end of the notes of slide `id`. */
  function Key(c: Ctl, id: nat, x: char, word: char -> bool): Call {
    var notes := NotesOf(c.doc.slides, id);
    Notes(id, (if notes.Some? then notes.value else "") + [x], word)
  }

  lemma {:induction false} PrefixTyped(a: string, x: char)
    ensures CommonPrefix(a, a + [x]) == |a|
  {
    if a != "" {
      assert (a + [x])[1..] == a[1..] + [x];
      PrefixTyped(a[1..], x);
    }
  }

  lemma TypedIs(a: string, x: char, word: char -> bool)
    requires word(x)
    ensures OneWordCharAdded(a, a + [x], word)
  {
    PrefixTyped(a, x);
  }

  /** The slide of the word being typed is there. */
  lemma WordSlideThere(c: Ctl)
    requires Standing(c) && Tight(c.steps, c.undoSels, c.redoSels, c.mergeChain) && c.mergeChain
    ensures var id := Last(c.steps.undo)[0].slide; WordOn(c.steps, id) && NotesOf(c.doc.slides, id).Some?
  {
    hide ApplyAll, Valid;
    var op := Last(c.steps.undo)[0];
    assert Last(c.steps.undo) == [op];
    var line :| OnLine(line, c.steps, c.doc);
    var k := |c.steps.undo|;
    assert Link(line[k], c.steps.undo[k - 1], line[k - 1]);
    LinkMoves(line[k], c.steps.undo[k - 1], line[k - 1], c.doc);
    StandsValid(c.steps, c.doc);
    SetSlideOne(c.doc, op.slide, op.props);
  }

  /** A call that is not disciplined loses the match, at once or with the next
      key of the word. */
  lemma UndisciplinedLoses(c: Ctl, call: Call, x: char, word: char -> bool)
    requires Standing(c) && InStep(c) && word(x) && !Disciplined(c, call)
    ensures var t := Make(c, call);
            var id := if c.steps.undo != [] && Last(c.steps.undo) != [] && Last(c.steps.undo)[0].SetSlide?
                      then Last(c.steps.undo)[0].slide else 0;
            Matched(t) ==> Disciplined(t, Key(t, id, x, word)) && !Matched(Make(t, Key(t, id, x, word)))
  {
    hide ApplyOps, SetNotes, Standing, OneWordCharAdded, Valid;
    StandingValid(c);
    WordSlideThere(c);
    var id := Last(c.steps.undo)[0].slide;
    var notes := NotesOf(c.doc.slides, id).value;
    TypedIs(notes, x, word);
    if call.RedoKey? {
      EmptyRedoLosesOne(c, id, notes + [x], word);
    } else if NotesOf(c.doc.slides, call.slide).value == call.notes {
      NotesUnchanged(c, call.slide, call.word);
      SameNotesLeavesOne(c, call.slide, id, notes + [x], word, call.word);
    } else {
      OtherSlideLosesOne(c, call.slide, call.notes, call.word);
    }
  }

  lemma StandingValid(c: Ctl)
    requires Standing(c)
    ensures Valid(c.doc.slides)
  {
    StandsValid(c.steps, c.doc);
  }

  lemma InStepMatched(c: Ctl)
    requires InStep(c)
    ensures Matched(c)
  {
  }

  /** The selection stacks stay as long as the history's, after a call and
      after whatever disciplined key follows, exactly when the call is
      disciplined. (`x` is some word character.) */
  lemma DisciplineIsExact(c: Ctl, call: Call, x: char, word: char -> bool)
    requires Standing(c) && InStep(c) && LegalCall(c, call) && word(x)
    ensures Disciplined(c, call) <==>
            var t := Make(c, call);
            Matched(t) && forall id :: Disciplined(t, Key(t, id, x, word)) ==> Matched(Make(t, Key(t, id, x, word)))
  {
    hide Make, InStep, Matched, Disciplined, Standing, Key;
    var t := Make(c, call);
    StandingValid(c);
    if Disciplined(c, call) {
      CallStanding(c, call);
      StandingValid(t);
      CallInStep(c, call);
      InStepMatched(t);
      forall id | Disciplined(t, Key(t, id, x, word))
        ensures Matched(Make(t, Key(t, id, x, word)))
      {
        CallInStep(t, Key(t, id, x, word));
        InStepMatched(Make(t, Key(t, id, x, word)));
      }
    } else {
      UndisciplinedLoses(c, call, x, word);
    }
  }

  // ---------------------------------------------------------------- the owned selection

  predicate LiveSelection(c: Ctl) {
    Ready(c.doc.slides) && c.selection == Repaired(c.doc.slides, c.selection)
  }

  lemma ReselectSettles(c: Ctl, sel: Selection)
    requires Valid(c.doc.slides)
    ensures LiveSelection(Reselect(c, sel))
  {
    RepairedIdempotent(c.doc.slides, sel);
  }

  lemma SettledErased(c: Ctl, doc: Doc)
    requires LiveSelection(c) && Valid(c.doc.slides) && Same(doc, c.doc)
    ensures LiveSelection(c.(doc := doc))
  {
    SameErased(doc.slides, c.doc.slides);
    RepairedErased(doc.slides, c.doc.slides, c.selection);
  }

  lemma ApplyOpsSettles(c: Ctl, ops: seq<Op>, merged: bool)
    requires LiveSelection(c) && Stands(c.steps, c.doc) && UndoableAll(c.doc, ops)
    ensures LiveSelection(ApplyOps(c, ops, merged).0)
  {
    StandsValid(c.steps, c.doc);
    ApplyOpsStands(c, ops, merged);
    var (t, applied) := ApplyOps(c, ops, merged);
    StandsValid(t.steps, t.doc);
    if applied {
      ReselectSettles(t, c.selection);
    } else if ops != [] {
      NothingDone(c.doc, ops);
      SettledErased(c, t.doc);
    }
  }

  lemma SetNotesSettles(c: Ctl, id: nat, notes: string, word: char -> bool)
    requires LiveSelection(c) && Stands(c.steps, c.doc)
    ensures LiveSelection(SetNotes(c, id, notes, word).0)
  {
    hide ApplyOps, ApplyDoc, OneWordCharAdded, Valid, Stands, Repaired;
    StandsValid(c.steps, c.doc);
    ReadyStays(c.doc.slides);
    var old' := NotesOf(c.doc.slides, id);
    if old'.Some? && old'.value != notes {
      var typing := OneWordCharAdded(old'.value, notes, word);
      var marked := c.(steps := c.steps.(merge := typing));
      var p := c.doc.slides[SlidePos(c.doc.slides, id).value].props;
      var ops := [SetSlide(id, p.(notes := notes))];
      assert UndoableAll(ApplyDoc(c.doc, ops[0]).doc, ops[1..]);
      MarkStands(c.steps, c.doc, typing);
      ApplyOpsSettles(marked, ops, typing && c.mergeChain);
    }
  }

  lemma UndoSettles(c: Ctl)
    requires LiveSelection(c) && Standing(c)
    ensures LiveSelection(UndoCall(c).0)
  {
    UndoStands(c);
    var t := UndoCall(c).0;
    StandsValid(t.steps, t.doc);
    if !c.textOpen {
      StepsNeverFail(c);
      if c.steps.undo != [] {
        var sel := if c.undoSels == [] then c.selection else Last(c.undoSels);
        ReselectSettles(t, sel);
      }
    }
  }

  lemma RedoSettles(c: Ctl)
    requires LiveSelection(c) && Standing(c)
    ensures LiveSelection(RedoCall(c).0)
  {
    RedoStands(c);
    var t := RedoCall(c).0;
    StandsValid(t.steps, t.doc);
    if !c.textOpen {
      StepsNeverFail(c);
      if c.steps.redo != [] {
        ReselectSettles(t, c.selection);
      }
    }
  }

  lemma SelectSettles(c: Ctl, id: nat, objects: seq<nat>, primary: Option<nat>, mode: Mode)
    requires LiveSelection(c) && Valid(c.doc.slides)
    ensures LiveSelection(SelectObjects(c, id, objects, primary, mode).0)
  {
    var i := SlidePos(c.doc.slides, id);
    if i.Some? {
      KeptAll(StillThere(objects, c.doc.slides[i.value].ids.objects), c.doc.slides[i.value].ids.objects);
    }
  }

  lemma SelectTextSettles(c: Ctl, r: TextRange)
    requires LiveSelection(c)
    ensures LiveSelection(SetTextRange(c, r).0)
  {
    if SetTextRange(c, r).1 {
      var i := SlidePos(c.doc.slides, c.selection.slide.value);
      KeptAll([r.target], c.doc.slides[i.value].ids.objects);
    }
  }

  lemma FinishSettles(c: Ctl)
    requires LiveSelection(c) && Standing(c)
    ensures LiveSelection(FinishMaster(c).0)
  {
    if c.master.Some? {
      var e := c.master.value;
      StandsValid(e.steps, c.doc.(slides := e.slides));
      var t := Reselect(PutBack(c, e), Single(e.fromSlide));
      ReselectSettles(PutBack(c, e), Single(e.fromSlide));
      if EditedMaster(c).Some? {
        var ops := [SetMaster(e.masterId, EditedMaster(c).value)];
        assert UndoableAll(ApplyDoc(t.doc, ops[0]).doc, ops[1..]);
        ApplyOpsSettles(t, ops, false);
      }
    }
  }

  /** Every call leaves the owned selection a fixpoint of its repair. */
  lemma CallSettles(c: Ctl, call: Call)
    requires LiveSelection(c) && Standing(c) && LegalCall(c, call)
    ensures LiveSelection(Make(c, call))
  {
    hide ApplyOps, SetNotes, UndoCall, RedoCall, FinishMaster, SelectObjects, SetTextRange, Stands;
    StandsValid(c.steps, c.doc);
    match call
    case Apply(ops) => ApplyOpsSettles(c, ops, false);
    case Notes(slide, notes, word) => SetNotesSettles(c, slide, notes, word);
    case UndoKey => UndoSettles(c);
    case RedoKey => RedoSettles(c);
    case Select(slide, objects, primary, mode) => SelectSettles(c, slide, objects, primary, mode);
    case SelectText(range) => SelectTextSettles(c, range);
    case EditMaster(slide) =>
      OpenMasterStanding(c, slide);
      StandsValid(Make(c, call).steps, Make(c, call).doc);
    case Done => FinishSettles(c);
    case Cancel =>
      if c.master.Some? {
        StandsValid(c.master.value.steps, c.doc.(slides := c.master.value.slides));
        ReselectSettles(PutBack(c, c.master.value), c.master.value.selection);
      }
    case _ =>
  }

  // ---------------------------------------------------------------- which selection an undo restores

  /** The calls keep at least `k` steps to undo, and stay in one view. */
  ghost predicate Above(c: Ctl, calls: seq<Call>, k: nat)
    decreases |calls|
  {
    |c.steps.undo| >= k && (calls == [] || (
      !calls[0].EditMaster? && !calls[0].Done? && !calls[0].Cancel? && Above(Make(c, calls[0]), calls[1..], k)))
  }

  /** The document stands on a line that begins with `base`. */
  ghost predicate From(c: Ctl, base: seq<Doc>) {
    exists line :: OnLine(line, c.steps, c.doc) && base <= line
  }

  /** At most the top of the stack came or went. */
  predicate TopOnly<T(==)>(a: seq<T>, b: seq<T>) {
    b == a || (b != [] && Init(b) == a) || (a != [] && b == Init(a))
  }

  lemma StackTop(c: Ctl, call: Call)
    requires !call.EditMaster? && !call.Done? && !call.Cancel?
    ensures TopOnly(c.undoSels, Make(c, call).undoSels) && TopOnly(c.steps.undo, Make(c, call).steps.undo)
  {
    hide ApplyOps, SetNotes, ApplyAll, Repaired, StillThere, RangeFits, OpenMaster, FinishMaster, CancelMaster;
    match call
    case Apply(ops) => ApplyOpsTop(c, ops, false);
    case Notes(slide, notes, word) => NotesTop(c, slide, notes, word);
    case _ =>
  }

  lemma ApplyOpsTop(c: Ctl, ops: seq<Op>, merged: bool)
    ensures var t := ApplyOps(c, ops, merged).0; TopOnly(c.undoSels, t.undoSels) && TopOnly(c.steps.undo, t.steps.undo)
  {
  }

  lemma NotesTop(c: Ctl, id: nat, notes: string, word: char -> bool)
    ensures var t := SetNotes(c, id, notes, word).0; TopOnly(c.undoSels, t.undoSels) && TopOnly(c.steps.undo, t.steps.undo)
  {
    hide ApplyOps, EnsureIds, OneWordCharAdded;
    var old' := NotesOf(c.doc.slides, id);
    var slides := EnsureIds(c.doc.slides);
    var i := SlidePos(slides, id);
    if old'.Some? && i.Some? {
      var typing := OneWordCharAdded(old'.value, notes, word);
      var marked := c.(steps := c.steps.(merge := typing), doc := c.doc.(slides := slides));
      ApplyOpsTop(marked, [SetSlide(id, slides[i.value].props.(notes := notes))], typing && c.mergeChain);
    }
  }

  lemma CallFrom(c: Ctl, call: Call, base: seq<Doc>)
    requires From(c, base) && |base| <= |c.steps.undo| && LegalCall(c, call)
    requires !call.EditMaster? && !call.Done? && !call.Cancel?
    ensures From(Make(c, call), base)
  {
    hide Make, OnLine, LegalCall;
    var line :| OnLine(line, c.steps, c.doc) && base <= line;
    var after := CallFollows(line, c, call);
    assert base == line[..|base|] == after[..|base|];
  }

  /** What lies below stays: the selections, and the past of the document. */
  lemma {:induction false} StackBelow(c: Ctl, calls: seq<Call>, k: nat, base: seq<Doc>)
    requires Standing(c) && InStep(c) && LegalCalls(c, calls) && DisciplinedCalls(c, calls)
    requires Above(c, calls, k) && From(c, base) && |base| <= k
    ensures var t := Calls(c, calls);
            && Standing(t) && InStep(t) && From(t, base) && |t.undoSels| == |t.steps.undo| >= k
            && |c.undoSels| >= k && t.undoSels[..k] == c.undoSels[..k]
    decreases |calls|
  {
    hide Make, Standing, LegalCall, Disciplined, From, OnLine;
    if calls != [] {
      StandingValid(c);
      CallStanding(c, calls[0]);
      CallInStep(c, calls[0]);
      CallFrom(c, calls[0], base);
      StackTop(c, calls[0]);
      StackBelow(Make(c, calls[0]), calls[1..], k, base);
    }
  }

  /** A recorded step: an edit, or notes that do not join the word before. */
  ghost predicate Recorded(c: Ctl, call: Call) {
    && Standing(c) && InStep(c) && (call.Apply? || call.Notes?) && LegalCall(c, call) && Disciplined(c, call)
    && |Make(c, call).steps.undo| == |c.steps.undo| + 1
  }

  /** A recorded step goes on top, with the selection it saw. */
  lemma RecordedSaw(c: Ctl, call: Call)
    requires Valid(c.doc.slides) && InStep(c) && (call.Apply? || call.Notes?) && Disciplined(c, call)
    requires |Make(c, call).steps.undo| == |c.steps.undo| + 1
    ensures Make(c, call).undoSels == c.undoSels + [c.selection] && Init(Make(c, call).steps.undo) == c.steps.undo
  {
    hide ApplyOps, SetNotes, Valid, Tight;
    match call
    case Apply(ops) => RecordedEdit(c, ops);
    case Notes(slide, notes, word) =>
      NotesInStep(c, slide, notes, word);
      RecordedNotes(c, slide, notes, word);
  }

  lemma RecordedEdit(c: Ctl, ops: seq<Op>)
    requires |ApplyOps(c, ops, false).0.steps.undo| == |c.steps.undo| + 1
    ensures ApplyOps(c, ops, false).0.undoSels == c.undoSels + [c.selection]
    ensures Init(ApplyOps(c, ops, false).0.steps.undo) == c.steps.undo
  {
    hide ApplyAll, Repaired;
  }

  lemma RecordedNotes(c: Ctl, id: nat, notes: string, word: char -> bool)
    requires Valid(c.doc.slides) && Tight(c.steps, c.undoSels, c.redoSels, c.mergeChain)
    requires var t := SetNotes(c, id, notes, word).0;
             && |t.steps.undo| == |c.steps.undo| + 1 && Tight(t.steps, t.undoSels, t.redoSels, t.mergeChain)
    ensures SetNotes(c, id, notes, word).0.undoSels == c.undoSels + [c.selection]
    ensures Init(SetNotes(c, id, notes, word).0.steps.undo) == c.steps.undo
  {
    hide SetNotes, OneWordCharAdded, Valid;
    var old' := NotesOf(c.doc.slides, id);
    if old'.None? {
      NotesMissing(c, id, notes, word);
    } else if old'.value == notes {
      NotesUnchanged(c, id, word);
    } else {
      NotesChanged(c, id, notes, word);
    }
  }

  lemma RecordedFrom(c: Ctl, call: Call) returns (base: seq<Doc>)
    requires Recorded(c, call)
    ensures |base| == |c.steps.undo| + 1 && Same(c.doc, base[|c.steps.undo|]) && From(Make(c, call), base)
  {
    hide Make, OnLine, LegalCall, InStep, Disciplined;
    var line :| OnLine(line, c.steps, c.doc);
    LineLong(line, c.steps, c.doc);
    LineHere(line, c.steps, c.doc);
    var after := CallFollows(line, c, call);
    base := line[..|c.steps.undo| + 1];
    assert base <= after;
  }

  lemma LineHere(line: seq<Doc>, h: Steps, doc: Doc)
    requires OnLine(line, h, doc)
    ensures |h.undo| < |line| && Same(doc, line[|h.undo|])
  {
  }

  /** Undone to just below `base`'s end, the document is what stands there. */
  lemma UndoneTo(u: Ctl, base: seq<Doc>)
    requires From(u, base) && base != [] && |u.steps.undo| == |base| && Standing(u) && !u.textOpen
    ensures var (v, done) := UndoCall(u); done && Valid(v.doc.slides) && Same(v.doc, base[|base| - 1])
  {
    hide OnLine, Repaired, ApplyAll, Valid;
    StepsNeverFail(u);
    var line :| OnLine(line, u.steps, u.doc) && base <= line;
    UndoOnLine(line, u.steps, u.doc);
    var m := Undo(u.steps, u.doc);
    LineHere(line, m.steps, m.doc);
    LineValid(line, m.steps, m.doc);
  }

  /** Undoing a recorded step, whatever disciplined calls did and undid since,
      gives the document as it was before that very step, and the selection
      that step saw, repaired against the slides then present. */
  lemma UndoRestoresItsSelection(c: Ctl, call: Call, calls: seq<Call>)
    requires Recorded(c, call)
    requires var t := Make(c, call);
             LegalCalls(t, calls) && DisciplinedCalls(t, calls) && Above(t, calls, |t.steps.undo|)
    requires var u := Calls(Make(c, call), calls); |u.steps.undo| == |c.steps.undo| + 1 && !u.textOpen
    ensures var (v, done) := UndoCall(Calls(Make(c, call), calls));
            && done && Same(v.doc, c.doc)
            && Ready(v.doc.slides) && v.selection == Repaired(v.doc.slides, c.selection)
  {
    hide Make, From, Standing, LegalCalls, DisciplinedCalls, Above, Calls, UndoCall, Disciplined, LegalCall, Repaired, Valid;
    var t := Make(c, call);
    StandingValid(c);
    CallStanding(c, call);
    CallInStep(c, call);
    RecordedSaw(c, call);
    var base := RecordedFrom(c, call);
    StackBelow(t, calls, |t.steps.undo|, base);
    var u := Calls(t, calls);
    UndoneTo(u, base);
    var v := UndoCall(u).0;
    SameBack(v.doc, base[|base| - 1], c.doc);
    ValidIsReady(v.doc.slides);
    assert u.undoSels[..|base|] == u.undoSels && t.undoSels[..|base|] == t.undoSels;
    UndoneSelection(u, c.undoSels, c.selection);
  }

  lemma SameBack(a: Doc, b: Doc, c: Doc)
    requires Same(a, b) && Same(c, b)
    ensures Same(a, c)
  {
  }

  lemma UndoneSelection(u: Ctl, below: seq<Selection>, sel: Selection)
    requires u.undoSels == below + [sel] && UndoCall(u).1 && Ready(UndoCall(u).0.doc.slides)
    ensures var v := UndoCall(u).0; v.selection == Repaired(v.doc.slides, sel)
  {
    hide Repaired, Undo;
  }
}
