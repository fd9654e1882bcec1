/** Undo and redo from stored inverses (the shared `History`), and what they
    come to: moving along one line of documents. */
module Timeline {
  import opened Engine
  import opened Sequences
  import opened Ops
  import opened Numbering
  import opened OpLaws
  import opened GroupLaws
  import opened Inverses
  import opened GroupUndo

  /** `merge`: the next recorded step is one typed word character. `word`:
      the top undo step is typed word characters. */
  datatype Steps = Steps(undo: seq<seq<Op>>, redo: seq<seq<Op>>, merge: bool, word: bool)

  const NO_STEPS := Steps([], [], false, false)

  function Last<T>(s: seq<T>): T
    requires s != []
  {
    s[|s| - 1]
  }

  function Init<T>(s: seq<T>): seq<T>
    requires s != []
  {
    s[..|s| - 1]
  }

  predicate Coalesces(prev: Op, next: Op) {
    prev.SetSlide? && next.SetSlide? && prev.slide == next.slide
  }

  /** Whether a step with inverse `ops` joins the top undo step. */
  predicate Joins(h: Steps, ops: seq<Op>) {
    h.merge && h.word && |ops| == 1 && h.undo != [] && |Last(h.undo)| == 1 && Coalesces(Last(h.undo)[0], ops[0])
  }

  function Record(h: Steps, ops: seq<Op>): Steps {
    if ops == [] then h.(merge := false)
    else
      var top := if Joins(h, ops) then h.undo else h.undo + [ops];
      Steps(top, [], false, h.merge)
  }

  /** The steps and document after an undo or redo; `done` is false when there
      was no step, or it no longer fitted and was dropped. */
  datatype Moved = Moved(steps: Steps, doc: Doc, done: bool)

  function Undo(h: Steps, doc: Doc): Moved {
    if h.undo == [] then Moved(h.(word := false), doc, false)
    else
      var o := ApplyAll(doc, Last(h.undo));
      match o.reply
      case Ok(inverse) => Moved(h.(undo := Init(h.undo), redo := h.redo + [inverse], word := false), o.doc, true)
      case Err(_) => Moved(h.(undo := Init(h.undo), word := false), o.doc, false)
  }

  function Redo(h: Steps, doc: Doc): Moved {
    if h.redo == [] then Moved(h.(word := false), doc, false)
    else
      var o := ApplyAll(doc, Last(h.redo));
      match o.reply
      case Ok(inverse) => Moved(h.(redo := Init(h.redo), undo := h.undo + [inverse], word := false), o.doc, true)
      case Err(_) => Moved(h.(redo := Init(h.redo), word := false), o.doc, false)
  }

  // ---------------------------------------------------------------- the line of documents

  /** The step `ops` takes `a`, or any document equal to it up to
      tombstones, to `b`: it applies, does something, and mints no id. */
  ghost predicate Link(a: Doc, ops: seq<Op>, b: Doc) {
    && Valid(a.slides)
    && ops != []
    && Clean(a, ops)
    && ApplyAll(a, ops).reply.Ok?
    && ApplyAll(a, ops).reply.value != []
    && Same(ApplyAll(a, ops).doc, b)
  }

  /** The documents of `line` in order, the undo steps leading back from each
      to the one before, the redo steps on to the one after. */
  ghost predicate Linked(line: seq<Doc>, h: Steps) {
    && |line| == |h.undo| + |h.redo| + 1
    && (forall k :: 0 <= k < |h.undo| ==> Link(line[k + 1], h.undo[k], line[k]))
    && (forall k :: 0 <= k < |h.redo| ==> Link(line[|line| - 2 - k], h.redo[k], line[|line| - 1 - k]))
  }

  /** As `Linked`, with `doc` at the cursor between undo and redo steps. */
  ghost predicate OnLine(line: seq<Doc>, h: Steps, doc: Doc) {
    Linked(line, h) && Valid(doc.slides) && Same(doc, line[|h.undo|])
  }

  lemma LinkMoves(a: Doc, ops: seq<Op>, b: Doc, doc: Doc)
    requires Link(a, ops, b) && Same(doc, a)
    ensures var o := ApplyAll(doc, ops);
            && o.reply.Ok? && o.reply.value != []
            && Valid(o.doc.slides) && Same(o.doc, b)
            && Link(o.doc, o.reply.value, doc)
  {
    SameErased(a.slides, doc.slides);
    CleanApplies(a, ops);
    CleanIgnoresTombstones(a, doc, ops);
    CleanApplies(doc, ops);
    GroupIgnoresTombstones(a, doc, ops, ops);
    EffectiveErased(ApplyAll(a, ops).reply, ApplyAll(doc, ops).reply);
    GroupRestores(doc, ops);
  }

  /** A link depends on its ends only up to tombstones. */
  lemma LinkErased(a: Doc, ops: seq<Op>, b: Doc, c: Doc, d: Doc)
    requires Link(a, ops, b) && Same(c, a) && Same(d, b)
    ensures Link(c, ops, d)
  {
    LinkMoves(a, ops, b, c);
    CleanIgnoresTombstones(a, c, ops);
    SameErased(a.slides, c.slides);
  }

  lemma StartOnLine(doc: Doc)
    requires Valid(doc.slides)
    ensures OnLine([doc], NO_STEPS, doc)
  {
  }

  /** Undo moves the cursor one back along the same line, and never fails. */
  lemma UndoOnLine(line: seq<Doc>, h: Steps, doc: Doc)
    requires OnLine(line, h, doc) && h.undo != []
    ensures var m := Undo(h, doc);
            && m.done && OnLine(line, m.steps, m.doc)
            && |m.steps.undo| == |h.undo| - 1 && |m.steps.redo| == |h.redo| + 1
  {
    hide ApplyAll, Link;
    var c := |h.undo|;
    LinkMoves(line[c], h.undo[c - 1], line[c - 1], doc);
    var o := ApplyAll(doc, h.undo[c - 1]);
    LinkErased(o.doc, o.reply.value, doc, line[c - 1], line[c]);
    Spliced(line, h, doc, Steps(Init(h.undo), h.redo + [o.reply.value], h.merge, false), o.doc);
  }

  /** Moving the cursor one back needs the step that leads on again. */
  lemma Spliced(line: seq<Doc>, h: Steps, doc: Doc, t: Steps, now: Doc)
    requires Linked(line, h) && h.undo != []
    requires t.undo == Init(h.undo) && |t.redo| == |h.redo| + 1 && Init(t.redo) == h.redo
    requires Link(line[|h.undo| - 1], Last(t.redo), line[|h.undo|])
    requires Valid(now.slides) && Same(now, line[|h.undo| - 1])
    ensures OnLine(line, t, now)
  {
  }

  /** Redo moves it one on. */
  lemma RedoOnLine(line: seq<Doc>, h: Steps, doc: Doc)
    requires OnLine(line, h, doc) && h.redo != []
    ensures var m := Redo(h, doc);
            && m.done && OnLine(line, m.steps, m.doc)
            && |m.steps.undo| == |h.undo| + 1 && |m.steps.redo| == |h.redo| - 1
  {
    hide ApplyAll, Link;
    var c, k := |h.undo|, |h.redo| - 1;
    LinkMoves(line[c], h.redo[k], line[c + 1], doc);
    var o := ApplyAll(doc, h.redo[k]);
    LinkErased(o.doc, o.reply.value, doc, line[c + 1], line[c]);
  }

  /** The line after an edit came to `now`: what lay ahead is gone; the edit
      stands at the end, or, when it joins the top step, in its place. */
  function EditedLine(line: seq<Doc>, h: Steps, inverse: seq<Op>, now: Doc): seq<Doc>
    requires |h.undo| < |line|
  {
    line[..if Joins(h, inverse) then |h.undo| else |h.undo| + 1] + [now]
  }

  /** Recording an applied edit keeps the document on a line that shares its
      past with the one before. */
  lemma EditOnLine(line: seq<Doc>, h: Steps, doc: Doc, ops: seq<Op>)
    requires OnLine(line, h, doc) && UndoableAll(doc, ops)
    requires var o := ApplyAll(doc, ops); o.reply.Ok? && o.reply.value != []
    ensures var o := ApplyAll(doc, ops);
            OnLine(EditedLine(line, h, o.reply.value, o.doc), Record(h, o.reply.value), o.doc)
  {
    hide ApplyAll, UndoableAll, Valid;
    var o := ApplyAll(doc, ops);
    var c := |h.undo|;
    EditLinks(doc, ops, line[c]);
    var t := Record(h, o.reply.value);
    if Joins(h, o.reply.value) {
      assert o.reply.value == [o.reply.value[0]] && h.undo[c - 1] == [h.undo[c - 1][0]];
      JoinedLink(o.doc, o.reply.value[0], line[c], h.undo[c - 1][0], line[c - 1]);
      EditReplaces(line, h, t, o.doc);
    } else {
      EditExtends(line, h, t, o.doc);
    }
  }

  lemma EditLinks(doc: Doc, ops: seq<Op>, at: Doc)
    requires Valid(doc.slides) && UndoableAll(doc, ops) && Same(doc, at)
    requires var o := ApplyAll(doc, ops); o.reply.Ok? && o.reply.value != []
    ensures var o := ApplyAll(doc, ops); Valid(o.doc.slides) && Link(o.doc, o.reply.value, at)
  {
    var o := ApplyAll(doc, ops);
    GroupRestores(doc, ops);
    assert Link(o.doc, o.reply.value, doc);
  }

  lemma EditExtends(line: seq<Doc>, h: Steps, t: Steps, now: Doc)
    requires Linked(line, h) && Valid(now.slides)
    requires |t.undo| == |h.undo| + 1 && Init(t.undo) == h.undo && t.redo == []
    requires Link(now, Last(t.undo), line[|h.undo|])
    ensures OnLine(line[..|h.undo| + 1] + [now], t, now)
  {
  }

  lemma EditReplaces(line: seq<Doc>, h: Steps, t: Steps, now: Doc)
    requires Linked(line, h) && Valid(now.slides)
    requires t.undo == h.undo && h.undo != [] && t.redo == []
    requires Link(now, Last(h.undo), line[|h.undo| - 1])
    ensures OnLine(line[..|h.undo|] + [now], t, now)
  {
  }

  lemma SetSlideOne(doc: Doc, slide: nat, p: SlideProps)
    requires Valid(doc.slides)
    ensures var o := ApplyAll(doc, [SetSlide(slide, p)]);
            var i := SlidePos(doc.slides, slide);
            && o.reply.Ok?
            && (i.None? ==> o.reply.value == [])
            && (i.Some? ==> o.reply.value == [SetSlide(slide, doc.slides[i.value].props)]
                            && o.doc == doc.(slides := doc.slides[i.value := doc.slides[i.value].(props := p)]))
  {
    One(doc, SetSlide(slide, p));
    OneSlideIs(doc.slides, SetSlide(slide, p));
  }

  /** Two typed steps on one slide: the first step's inverse alone undoes both. */
  lemma JoinedLink(now: Doc, next: Op, mid: Doc, prev: Op, was: Doc)
    requires Link(now, [next], mid) && Link(mid, [prev], was) && Coalesces(prev, next)
    ensures Link(now, [prev], was)
  {
    var slide := prev.slide;
    SetSlideOne(now, slide, next.props);
    SetSlideOne(now, slide, prev.props);
    SetSlideOne(mid, slide, prev.props);
    var i := SlidePos(now.slides, slide).value;
    var t := ApplyAll(now, [next]).doc;
    assert t.slides[i := t.slides[i].(props := prev.props)] == now.slides[i := now.slides[i].(props := prev.props)];
    SamePos(now.slides, i, now.slides[i].(props := next.props), slide);
    LinkMoves(now, [next], mid, now);
    SetSlideOne(t, slide, prev.props);
    assert [prev][1..] == [];
    OneSlideIs(now.slides, prev);
    assert Clean(ApplyDoc(now, prev).doc, []);
    assert Clean(now, [prev]);
    LinkMoves(mid, [prev], was, t);
  }

  // ---------------------------------------------------------------- whole runs

  /** What an editor does: an edit (`typed`: one word character of notes), an
      undo or a redo. */
  datatype Event = EditEvent(ops: seq<Op>, typed: bool) | UndoEvent | RedoEvent

  datatype Session = Session(steps: Steps, doc: Doc)

  function Do(s: Session, e: Event): Session {
    match e
    case EditEvent(ops, typed) =>
      var o := ApplyAll(s.doc, ops);
      if o.reply.Ok? && o.reply.value != [] then Session(Record(s.steps.(merge := typed), o.reply.value), o.doc)
      else Session(s.steps.(merge := false), o.doc)
    case UndoEvent => var m := Undo(s.steps, s.doc); Session(m.steps, m.doc)
    case RedoEvent => var m := Redo(s.steps, s.doc); Session(m.steps, m.doc)
  }

  function Run(s: Session, events: seq<Event>): Session
    decreases |events|
  {
    if events == [] then s else Run(Do(s, events[0]), events[1..])
  }

  /** Every edit of the run, where it happens, can be undone. */
  ghost predicate Legal(s: Session, events: seq<Event>)
    decreases |events|
  {
    events == [] || (
      && (events[0].EditEvent? ==> UndoableAll(s.doc, events[0].ops))
      && Legal(Do(s, events[0]), events[1..]))
  }

  ghost predicate HasLine(s: Session) {
    exists line :: OnLine(line, s.steps, s.doc)
  }

  /** A group that fails, or does nothing, leaves the document as it was. */
  lemma NothingDone(doc: Doc, ops: seq<Op>)
    requires Valid(doc.slides) && UndoableAll(doc, ops)
    requires var reply := ApplyAll(doc, ops).reply; reply.Err? || reply.value == []
    ensures Valid(ApplyAll(doc, ops).doc.slides) && Same(ApplyAll(doc, ops).doc, doc)
  {
    if ApplyAll(doc, ops).reply.Err? {
      FailedGroupRestores(doc, ops);
    } else {
      GroupRestores(doc, ops);
    }
  }

  lemma Remarked(line: seq<Doc>, h: Steps, doc: Doc, now: Doc, merge: bool)
    requires OnLine(line, h, doc) && Valid(now.slides) && Same(now, doc)
    ensures OnLine(line, h.(merge := merge), now)
  {
  }

  /** Up to `n` the lines are the same. */
  predicate KeptTo(a: seq<Doc>, b: seq<Doc>, n: nat) {
    n <= |a| && n <= |b| && a[..n] == b[..n]
  }

  /** How far back a line stays as it was when `h` becomes `t`: up to the
      cursor, and with the cursor if a step was added after it. */
  function Past(h: Steps, t: Steps): nat {
    if |t.undo| > |h.undo| then |h.undo| + 1 else |h.undo|
  }

  lemma EditEventOnLine(line: seq<Doc>, s: Session, ops: seq<Op>, typed: bool) returns (after: seq<Doc>)
    requires OnLine(line, s.steps, s.doc) && UndoableAll(s.doc, ops)
    ensures var t := Do(s, EditEvent(ops, typed)); OnLine(after, t.steps, t.doc)
    ensures KeptTo(line, after, Past(s.steps, Do(s, EditEvent(ops, typed)).steps))
  {
    hide ApplyAll;
    var o := ApplyAll(s.doc, ops);
    if o.reply.Ok? && o.reply.value != [] {
      var h := s.steps.(merge := typed);
      Remarked(line, s.steps, s.doc, s.doc, typed);
      EditOnLine(line, h, s.doc, ops);
      after := EditedLine(line, h, o.reply.value, o.doc);
    } else {
      after := line;
      NothingDone(s.doc, ops);
      Remarked(line, s.steps, s.doc, o.doc, false);
    }
  }

  lemma EventOnLine(line: seq<Doc>, s: Session, e: Event) returns (after: seq<Doc>)
    requires OnLine(line, s.steps, s.doc)
    requires e.EditEvent? ==> UndoableAll(s.doc, e.ops)
    ensures OnLine(after, Do(s, e).steps, Do(s, e).doc)
    ensures !e.EditEvent? ==> after == line
    ensures e.EditEvent? ==> KeptTo(line, after, Past(s.steps, Do(s, e).steps))
  {
    match e
    case EditEvent(ops, typed) =>
      after := EditEventOnLine(line, s, ops, typed);
    case UndoEvent =>
      after := line;
      if s.steps.undo != [] {
        UndoOnLine(line, s.steps, s.doc);
      }
    case RedoEvent =>
      after := line;
      if s.steps.redo != [] {
        RedoOnLine(line, s.steps, s.doc);
      }
  }

  /** For any run of edits, undos and redos: the document stands on a line of
      documents that the undo and redo steps move along. */
  lemma {:induction false} RunOnLine(s: Session, events: seq<Event>)
    requires HasLine(s) && Legal(s, events)
    ensures HasLine(Run(s, events))
    decreases |events|
  {
    if events != [] {
      var line :| OnLine(line, s.steps, s.doc);
      var after := EventOnLine(line, s, events[0]);
      RunOnLine(Do(s, events[0]), events[1..]);
    }
  }

  function Times(e: Event, n: nat): seq<Event> {
    seq(n, _ => e)
  }

  lemma {:induction false} UndoTimes(line: seq<Doc>, s: Session, n: nat)
    requires OnLine(line, s.steps, s.doc) && n <= |s.steps.undo|
    ensures var t := Run(s, Times(UndoEvent, n));
            OnLine(line, t.steps, t.doc) && |t.steps.undo| == |s.steps.undo| - n
    decreases n
  {
    hide OnLine, ApplyAll;
    if n > 0 {
      UndoOnLine(line, s.steps, s.doc);
      assert Times(UndoEvent, n)[1..] == Times(UndoEvent, n - 1);
      UndoTimes(line, Do(s, UndoEvent), n - 1);
    }
  }

  lemma {:induction false} RedoTimes(line: seq<Doc>, s: Session, n: nat)
    requires OnLine(line, s.steps, s.doc) && n <= |s.steps.redo|
    ensures var t := Run(s, Times(RedoEvent, n));
            OnLine(line, t.steps, t.doc) && |t.steps.undo| == |s.steps.undo| + n
    decreases n
  {
    hide OnLine, ApplyAll;
    if n > 0 {
      RedoOnLine(line, s.steps, s.doc);
      assert Times(RedoEvent, n)[1..] == Times(RedoEvent, n - 1);
      RedoTimes(line, Do(s, RedoEvent), n - 1);
    }
  }

  /** After any run: `n` undos and then `n` redos give every slide, object,
      id, build and master back, whatever is redone with the ids it had. */
  lemma UndosThenRedos(s: Session, events: seq<Event>, n: nat)
    requires HasLine(s) && Legal(s, events) && n <= |Run(s, events).steps.undo|
    ensures var t := Run(s, events);
            var back := Run(t, Times(UndoEvent, n));
            Same(Run(back, Times(RedoEvent, n)).doc, t.doc)
  {
    hide Times, Run, Legal, Link;
    RunOnLine(s, events);
    var t := Run(s, events);
    var line :| OnLine(line, t.steps, t.doc);
    UndoTimes(line, t, n);
    RedoTimes(line, Run(t, Times(UndoEvent, n)), n);
  }

  /** Keystrokes that each join the step before. */
  ghost predicate AllJoin(s: Session, keys: seq<seq<Op>>)
    decreases |keys|
  {
    keys == [] || (
      var o := ApplyAll(s.doc, keys[0]);
      && UndoableAll(s.doc, keys[0])
      && o.reply.Ok? && o.reply.value != []
      && Joins(s.steps.(merge := true), o.reply.value)
      && AllJoin(Do(s, EditEvent(keys[0], true)), keys[1..]))
  }

  function Type(s: Session, keys: seq<seq<Op>>): Session
    decreases |keys|
  {
    if keys == [] then s else Type(Do(s, EditEvent(keys[0], true)), keys[1..])
  }

  /** Typing that joins the top step moves the end of the line, not its past. */
  lemma {:induction false} JoinedTyping(line: seq<Doc>, s: Session, keys: seq<seq<Op>>)
    requires OnLine(line, s.steps, s.doc) && s.steps.undo != [] && AllJoin(s, keys)
    ensures var t := Type(s, keys);
            && |t.steps.undo| == |s.steps.undo|
            && exists after :: OnLine(after, t.steps, t.doc) && after[|t.steps.undo| - 1] == line[|s.steps.undo| - 1]
    decreases |keys|
  {
    if keys != [] {
      var c := |s.steps.undo|;
      var e := EditEvent(keys[0], true);
      var next := EventOnLine(line, s, e);
      var o := ApplyAll(s.doc, keys[0]);
      assert Do(s, e).steps.undo == s.steps.undo;
      assert next[c - 1] == next[..c][c - 1] == line[..c][c - 1] == line[c - 1];
      JoinedTyping(next, Do(s, e), keys[1..]);
    }
  }

  /** A word typed key by key is one step: its undo gives the document as it
      was before the first key. */
  lemma TypedWordUndoes(s: Session, first: seq<Op>, keys: seq<seq<Op>>)
    requires HasLine(s) && UndoableAll(s.doc, first)
    requires var o := ApplyAll(s.doc, first);
             o.reply.Ok? && o.reply.value != [] && !Joins(s.steps.(merge := true), o.reply.value)
    requires AllJoin(Do(s, EditEvent(first, true)), keys)
    ensures Same(Do(Type(Do(s, EditEvent(first, true)), keys), UndoEvent).doc, s.doc)
  {
    var line :| OnLine(line, s.steps, s.doc);
    var c := |s.steps.undo|;
    var h := s.steps.(merge := true);
    var o := ApplyAll(s.doc, first);
    var typed := Do(s, EditEvent(first, true));
    assert OnLine(line, h, s.doc);
    EditOnLine(line, h, s.doc, first);
    var after := EditedLine(line, h, o.reply.value, o.doc);
    assert after[c] == line[c];
    JoinedTyping(after, typed, keys);
    var t := Type(typed, keys);
    var last :| OnLine(last, t.steps, t.doc) && last[|t.steps.undo| - 1] == after[|typed.steps.undo| - 1];
    UndoOnLine(last, t.steps, t.doc);
  }
}
