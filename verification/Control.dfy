/** What the deck controller does on each call: the document, its history,
    the selection stacks beside it, the master view and the save clock. */
module Control {
  import opened Engine
  import opened Sequences
  import opened Ops
  import opened Numbering
  import opened OpLaws
  import opened GroupLaws
  import opened Inverses
  import opened GroupUndo
  import opened Timeline
  import opened Identity
  import opened Selecting

  /** What the master view put aside, to put back on Done or Cancel. */
  datatype MasterEdit = MasterEdit(
    masterId: nat,
    slides: seq<Slide>,
    steps: Steps,
    selection: Selection,
    undoSels: seq<Selection>,
    redoSels: seq<Selection>,
    mergeChain: bool,
    fromSlide: nat)

  datatype Ctl = Ctl(
    doc: Doc,
    steps: Steps,
    undoSels: seq<Selection>,
    redoSels: seq<Selection>,
    mergeChain: bool,
    master: Option<MasterEdit>,
    revision: nat,
    saved: Option<nat>,
    dirty: bool,
    selection: Selection,
    textOpen: bool)

  /** A session on a deck just read, its ids given, its first slide current. */
  function NewSession(slides: seq<Slide>, masters: seq<Master>): Ctl {
    var numbered := EnsureIds(slides);
    Ctl(Doc(numbered, masters), NO_STEPS, [], [], false, None, 0, None, false,
        if numbered == [] then NOTHING else Single(numbered[0].ids.slide), false)
  }

  // ---------------------------------------------------------------- edits

  function Reselect(c: Ctl, sel: Selection): Ctl {
    if Ready(c.doc.slides) then c.(selection := Repaired(c.doc.slides, sel)) else c
  }

  /** A recorded edit, undo or redo: a new revision, to be saved. */
  function Touched(c: Ctl): Ctl {
    c.(revision := c.revision + 1, dirty := true, mergeChain := false)
  }

  /** `apply_ops_inner`: one undo step, or nothing at all. */
  function ApplyOps(c: Ctl, ops: seq<Op>, merged: bool): (Ctl, bool) {
    if ops == [] then (c, false)
    else
      var o := ApplyAll(c.doc, ops);
      if o.reply.Err? || o.reply.value == [] then (c.(doc := o.doc), false)
      else
        var sels := if merged then c.undoSels else c.undoSels + [c.selection];
        var t := c.(doc := o.doc, steps := Record(c.steps, o.reply.value), undoSels := sels, redoSels := []);
        (Reselect(Touched(t), c.selection), true)
  }

  /** How much of `a` and `b` is the same from the start. */
  function CommonPrefix(a: string, b: string): (n: nat)
    ensures n <= |a| && n <= |b| && a[..n] == b[..n]
    ensures n < |a| && n < |b| ==> a[n] != b[n]
  {
    if a == [] || b == [] || a[0] != b[0] then 0 else 1 + CommonPrefix(a[1..], b[1..])
  }

  /** Whether `b` is `a` with one word character typed into it. */
  predicate OneWordCharAdded(a: string, b: string, word: char -> bool) {
    |b| == |a| + 1 &&
    var at := CommonPrefix(a, b);
    word(b[at]) && a[at..] == b[at + 1..]
  }

  /** The notes of slide `id`, if it is there. */
  function NotesOf(slides: seq<Slide>, id: nat): Option<string> {
    var i := SlidePos(slides, id);
    if i.None? then None else Some(slides[i.value].props.notes)
  }

  /** `set_notes`: a word character joins the word being typed. */
  function SetNotes(c: Ctl, id: nat, notes: string, word: char -> bool): (Ctl, bool) {
    var old' := NotesOf(c.doc.slides, id);
    if old'.None? then (c, false)
    else
      var typing := OneWordCharAdded(old'.value, notes, word);
      var merged := typing && c.mergeChain;
      var slides := EnsureIds(c.doc.slides);
      var marked := c.(steps := c.steps.(merge := typing), doc := c.doc.(slides := slides));
      var i := SlidePos(slides, id);
      if i.None? then (marked.(steps := marked.steps.(merge := false), mergeChain := false), false)
      else
        var p := slides[i.value].props;
        var (t, changed) := if p.notes == notes then (marked, false)
                            else ApplyOps(marked, [SetSlide(id, p.(notes := notes))], merged);
        if changed then (t.(mergeChain := typing), true)
        else (t.(steps := t.steps.(merge := false), mergeChain := false), false)
  }

  function Pop<T>(s: seq<T>): seq<T> {
    if s == [] then s else Init(s)
  }

  function UndoCall(c: Ctl): (Ctl, bool) {
    if c.textOpen then (c, false)
    else
      var m := Undo(c.steps, c.doc);
      var t := c.(steps := m.steps, doc := m.doc, undoSels := Pop(c.undoSels));
      if !m.done then (t, false)
      else
        var sel := if c.undoSels == [] then c.selection else Last(c.undoSels);
        (Touched(Reselect(t.(redoSels := c.redoSels + [c.selection]), sel)), true)
  }

  function RedoCall(c: Ctl): (Ctl, bool) {
    if c.textOpen then (c, false)
    else
      var m := Redo(c.steps, c.doc);
      var t := c.(steps := m.steps, doc := m.doc, redoSels := Pop(c.redoSels));
      if !m.done then (t, false)
      else (Touched(Reselect(t.(undoSels := c.undoSels + [c.selection]), c.selection)), true)
  }

  // ---------------------------------------------------------------- selection

  function SelectObjects(c: Ctl, id: nat, objects: seq<nat>, primary: Option<nat>, mode: Mode): (Ctl, bool) {
    var i := SlidePos(c.doc.slides, id);
    if i.None? then (c, false)
    else
      var kept := StillThere(objects, c.doc.slides[i.value].ids.objects);
      var first := if primary.Some? && primary.value in kept then primary else FirstOf(kept);
      (c.(selection := Selection(Some(id), kept, first, if kept == [] then ObjectMode else mode, None)), true)
  }

  function SetTextRange(c: Ctl, r: TextRange): (Ctl, bool)
    requires Ready(c.doc.slides)
  {
    var i := if c.selection.slide.Some? then SlidePos(c.doc.slides, c.selection.slide.value) else None;
    if i.None? || !RangeFits(c.doc.slides[i.value], r) then (c, false)
    else (c.(selection := Selection(c.selection.slide, [r.target], Some(r.target), TextMode, Some(r))), true)
  }

  // ---------------------------------------------------------------- the master view

  /** The master as the stand-in slide the master view edits. */
  function MasterAsSlide(m: Master): Slide {
    Slide(SlideProps(m.name, m.background, None, "", None, NoTransition, [], None), false, m.shapes, SlideIds(0, [], []))
  }

  /** The master with the stand-in's background and decorations, and no more. */
  function MasterFromSlide(m: Master, s: Slide): Master {
    m.(background := s.props.background, shapes := s.objects)
  }

  function MasterFor(doc: Doc, slide: nat): Option<nat> {
    var i := SlidePos(doc.slides, slide);
    if i.None? then None
    else
      var id := doc.slides[i.value].props.masterId;
      if id.Some? then (if MasterPos(doc.masters, id.value).Some? then id else None)
      else if doc.masters == [] then None
      else Some(doc.masters[0].id)
  }

  function OpenMaster(c: Ctl, slide: nat): (r: (Ctl, bool))
    ensures r.1 ==> |r.0.doc.slides| == 1
  {
    var id := if c.master.Some? || c.textOpen then None else MasterFor(c.doc, slide);
    if id.None? || MasterPos(c.doc.masters, id.value).None? then (c, false)
    else
      var m := c.doc.masters[MasterPos(c.doc.masters, id.value).value];
      var stand := EnsureIds([MasterAsSlide(m)]);
      EnsureIdsReady([MasterAsSlide(m)]);
      var aside := MasterEdit(id.value, c.doc.slides, c.steps, c.selection, c.undoSels, c.redoSels, c.mergeChain, slide);
      (c.(doc := c.doc.(slides := stand), steps := NO_STEPS, undoSels := [], redoSels := [], mergeChain := false,
          selection := Single(stand[0].ids.slide), master := Some(aside)), true)
  }

  /** What was put aside, back in place. */
  function PutBack(c: Ctl, e: MasterEdit): Ctl {
    c.(doc := c.doc.(slides := e.slides), steps := e.steps, undoSels := e.undoSels, redoSels := e.redoSels,
       mergeChain := e.mergeChain, master := None)
  }

  function CancelMaster(c: Ctl): (Ctl, bool) {
    if c.master.None? then (c, false)
    else (Reselect(PutBack(c, c.master.value), c.master.value.selection), true)
  }

  /** The master as edited so far, when it and the stand-in are there. */
  function EditedMaster(c: Ctl): Option<Master> {
    if c.master.None? then None
    else
      var at := MasterPos(c.doc.masters, c.master.value.masterId);
      if at.None? || c.doc.slides == [] then None
      else Some(MasterFromSlide(c.doc.masters[at.value], c.doc.slides[0]))
  }

  function FinishMaster(c: Ctl): (Ctl, bool) {
    if c.master.None? then (c, false)
    else
      var e := c.master.value;
      var t := Reselect(PutBack(c, e), Single(e.fromSlide));
      var edited := EditedMaster(c);
      var at := MasterPos(c.doc.masters, e.masterId);
      if edited.None? || (at.Some? && c.doc.masters[at.value] == edited.value) then (t, true)
      else (ApplyOps(t, [SetMaster(e.masterId, edited.value)], false).0, true)
  }

  /** The deck as it would be saved: in the master view, the deck's own
      slides with the master as edited so far. */
  function DeckOf(c: Ctl): Doc {
    if c.master.None? then c.doc
    else
      var edited := EditedMaster(c);
      var at := MasterPos(c.doc.masters, c.master.value.masterId);
      if edited.Some? && at.Some? then Doc(c.master.value.slides, c.doc.masters[at.value := edited.value])
      else Doc(c.master.value.slides, c.doc.masters)
  }

  // ---------------------------------------------------------------- saving

  /** `acknowledge_save`: clean only if nothing happened since `checkpoint`. */
  function AcknowledgeSave(c: Ctl, checkpoint: nat): (Ctl, bool) {
    if c.revision == checkpoint then (c.(saved := Some(c.revision), dirty := false), true) else (c, false)
  }

  // ---------------------------------------------------------------- calls

  datatype Call =
    | Apply(ops: seq<Op>)
    | Notes(slide: nat, notes: string, word: char -> bool)
    | UndoKey
    | RedoKey
    | Select(slide: nat, objects: seq<nat>, primary: Option<nat>, mode: Mode)
    | SelectText(range: TextRange)
    | BeginText
    | EndText
    | EditMaster(slide: nat)
    | Done
    | Cancel
    | Acknowledge(checkpoint: nat)

  function Make(c: Ctl, call: Call): Ctl {
    match call
    case Apply(ops) => ApplyOps(c, ops, false).0
    case Notes(slide, notes, word) => SetNotes(c, slide, notes, word).0
    case UndoKey => UndoCall(c).0
    case RedoKey => RedoCall(c).0
    case Select(slide, objects, primary, mode) => SelectObjects(c, slide, objects, primary, mode).0
    case SelectText(range) => if Ready(c.doc.slides) then SetTextRange(c, range).0 else c
    case BeginText => c.(textOpen := true)
    case EndText => c.(textOpen := false)
    case EditMaster(slide) => OpenMaster(c, slide).0
    case Done => FinishMaster(c).0
    case Cancel => CancelMaster(c).0
    case Acknowledge(checkpoint) => AcknowledgeSave(c, checkpoint).0
  }

  function Calls(c: Ctl, calls: seq<Call>): Ctl
    decreases |calls|
  {
    if calls == [] then c else Calls(Make(c, calls[0]), calls[1..])
  }
}
