/** The document edited in place, op by op and group by group, and the
    history of inverses kept beside it. */
module Editor {
  import opened Engine
  import opened Sequences
  import opened Ops
  import opened Numbering
  import opened OpLaws
  import Timeline
  import opened GroupLaws

  /** The slides and masters one op edits in place. */
  class DeckDoc {
    var slides: seq<Slide>
    var masters: seq<Master>

    constructor (slides: seq<Slide>, masters: seq<Master>)
      ensures this.slides == slides && this.masters == masters
    {
      this.slides, this.masters := slides, masters;
    }

    function Value(): Doc
      reads this
    {
      Doc(slides, masters)
    }

    /** Number slide by slide, with a running next id. */
    method EnsureIds()
      modifies this`slides
      ensures slides == Ops.EnsureIds(old(slides))
    {
      var next := NextId(slides);
      ghost var was := slides;
      ghost var goal := Ops.EnsureIds(slides);
      assert was[0..] == was;
      for i := 0 to |slides|
        invariant |slides| == |was| && slides[i..] == was[i..]
        invariant goal == slides[..i] + EnsureFrom(was[i..], next)
      {
        ghost var before, start := slides, next;
        var numbered;
        numbered, next := NumberSlide(slides[i], next);
        slides := slides[i := numbered];
        EnsureStep(was, i, start);
        Placed(before, was, i, numbered, EnsureFrom(was[i + 1..], next));
      }
    }

    /** One slide's missing ids, from `next` on; and the next id after them. */
    static method NumberSlide(s: Slide, next: nat) returns (t: Slide, after: nat)
      ensures (t, after) == AssignIds(s, next)
    {
      after := next;
      var own := s.ids.slide;
      if own == 0 {
        own := after;
        after := after + 1;
      }
      var ids := if |s.ids.objects| <= |s.objects| then s.ids.objects else s.ids.objects[..|s.objects|];
      ghost var from := after;
      while |ids| < |s.objects|
        invariant |KeptIds(s)| <= |ids| <= |s.objects|
        invariant after == from + (|ids| - |KeptIds(s)|)
        invariant ids == KeptIds(s) + Fresh(from, |ids| - |KeptIds(s)|)
      {
        ids := ids + [after];
        after := after + 1;
      }
      t := s.(ids := SlideIds(own, ids, s.ids.deleted));
    }

    /** Apply one op to the slides: the ops that undo it, in order. */
    method ApplyToSlides(op: Op) returns (reply: Reply)
      modifies this`slides
      ensures Outcome(slides, reply) == Apply(old(slides), op)
    {
      EnsureIds();
      EnsureFromReady(old(slides), NextId(old(slides)));
      match op
      case SetMaster(_, _) =>
        reply := Ok([]);
      case InsertSlide(at, page) =>
        if at > |slides| {
          return Err(OutOfRange);
        }
        if page.ids.slide != 0 && SlidePos(slides, page.ids.slide).Some? {
          return Err(Duplicate);
        }
        var s := page;
        if s.ids.slide == 0 {
          s := s.(ids := s.ids.(slide := NextId(slides)));
        }
        slides := Insert(slides, at, s);
        EnsureIds();
        reply := Ok([DeleteSlide(s.ids.slide)]);
      case DeleteSlide(slide) =>
        var i := SlidePos(slides, slide);
        if i.None? {
          return Ok([]);
        }
        if |slides| == 1 {
          return Err(LastSlide);
        }
        var removed := slides[i.value];
        slides := Remove(slides, i.value);
        var n := if i.value < |slides| - 1 then i.value else |slides| - 1;
        var keep := slides[n].ids.deleted;
        keep := keep + ([removed.ids.slide] + removed.ids.objects + removed.ids.deleted);
        slides := slides[n := slides[n].(ids := slides[n].ids.(deleted := keep))];
        reply := Ok([InsertSlide(i.value, removed)]);
      case MoveSlide(slide, to) =>
        var i := SlidePos(slides, slide);
        if i.None? {
          return Ok([]);
        }
        if to >= |slides| {
          return Err(OutOfRange);
        }
        var s := slides[i.value];
        slides := Remove(slides, i.value);
        slides := Insert(slides, to, s);
        reply := Ok([MoveSlide(slide, i.value)]);
      case _ =>
        var i := SlidePos(slides, op.slide);
        if i.None? {
          return Ok([]);
        }
        var s, r := EditSlide(slides[i.value], op);
        slides := slides[i.value := s];
        reply := r;
    }

    /** The ops on one slide's properties and objects. */
    static method EditSlide(s: Slide, op: Op) returns (t: Slide, reply: Reply)
      requires OnOneSlide(op) && |s.ids.objects| == |s.objects|
      ensures (t, reply) == Edit(s, op)
    {
      t := s;
      match op
      case SetSlide(slide, props) =>
        t := t.(props := props);
        reply := Ok([SetSlide(slide, s.props)]);
      case InsertObject(slide, at, id, what) =>
        if at > |s.objects| {
          return t, Err(OutOfRange);
        }
        if IndexOf(s.ids.objects, id).Some? {
          return t, Err(Duplicate);
        }
        t := t.(objects := Insert(t.objects, at, what));
        t := t.(ids := t.ids.(objects := Insert(t.ids.objects, at, id)));
        t := t.(ids := t.ids.(deleted := Without(t.ids.deleted, id)));
        reply := Ok([DeleteObject(slide, id)]);
      case DeleteObject(slide, id) =>
        var at := IndexOf(s.ids.objects, id);
        if at.None? {
          return t, Ok([]);
        }
        var gone := t.objects[at.value];
        t := t.(objects := Remove(t.objects, at.value));
        t := t.(ids := t.ids.(objects := Remove(t.ids.objects, at.value)));
        t := t.(ids := t.ids.(deleted := t.ids.deleted + [id]));
        t := t.(props := t.props.(builds := WithoutObject(t.props.builds, id)));
        var undo := [InsertObject(slide, at.value, id, gone)];
        if NamesObject(s.props.builds, id) {
          undo := undo + [SetSlide(slide, s.props)];
        }
        assert !NamesObject(s.props.builds, id) ==> undo + [] == undo;
        reply := Ok(undo);
      case MoveObject(slide, id, to) =>
        var from := IndexOf(s.ids.objects, id);
        if from.None? {
          return t, Ok([]);
        }
        if to >= |s.objects| {
          return t, Err(OutOfRange);
        }
        var what := t.objects[from.value];
        t := t.(objects := Insert(Remove(t.objects, from.value), to, what));
        t := t.(ids := t.ids.(objects := Insert(Remove(t.ids.objects, from.value), to, id)));
        reply := Ok([MoveObject(slide, id, from.value)]);
      case SetObject(slide, id, what) =>
        var at := IndexOf(s.ids.objects, id);
        if at.None? {
          return t, Ok([]);
        }
        var old' := t.objects[at.value];
        t := t.(objects := t.objects[at.value := what]);
        reply := Ok([SetObject(slide, id, old')]);
    }

    method ApplyOne(op: Op) returns (reply: Reply)
      modifies this
      ensures DocOutcome(Value(), reply) == ApplyDoc(old(Value()), op)
    {
      if op.SetMaster? {
        var i := MasterPos(masters, op.id);
        if i.None? {
          return Err(OutOfRange);
        }
        var old' := masters[i.value];
        masters := masters[i.value := op.master.(id := op.id)];
        reply := Ok([SetMaster(op.id, old')]);
      } else {
        reply := ApplyToSlides(op);
      }
    }

    /** The whole group or none of it: on the first failure the inverses of
        what was applied are applied, last first. */
    method ApplyGroup(ops: seq<Op>) returns (reply: Reply)
      modifies this
      ensures DocOutcome(Value(), reply) == ApplyAll(old(Value()), ops)
      decreases !Short(ops), |ops|
    {
      var undo: seq<seq<Op>> := [];
      for i := 0 to |ops|
        invariant |undo| == i
        invariant forall k :: 0 <= k < i ==> Short(undo[k])
        invariant ApplyAll(old(Value()), ops) == Unwound(undo, ApplyAll(Value(), ops[i..]))
      {
        ghost var before := Value();
        var r := ApplyOne(ops[i]);
        GroupStep(before, ops, i);
        match r
        case Ok(inverse) =>
          undo := undo + [inverse];
          assert Timeline.Init(undo) == undo[..i];
        case Err(e) =>
          assert i > 0 ==> !Short(ops);
          assert undo[..i] == undo;
          var k := i;
          while k > 0
            invariant 0 <= k <= i
            invariant ApplyAll(old(Value()), ops) == Unwound(undo[..k], DocOutcome(Value(), Err(e)))
          {
            k := k - 1;
            assert Timeline.Init(undo[..k + 1]) == undo[..k];
            var _ := ApplyGroup(undo[k]);
          }
          return Err(e);
      }
      reply := Ok(Reversed(undo));
      assert ops[|ops|..] == [];
      assert [] + Reversed(undo) == Reversed(undo);
      UnwoundDone(undo, Value(), []);
    }
  }

  lemma GroupStep(doc: Doc, ops: seq<Op>, i: nat)
    requires i < |ops|
    ensures var first := ApplyDoc(doc, ops[i]);
            && (first.reply.Err? ==> ApplyAll(doc, ops[i..]) == first)
            && (first.reply.Ok? ==> ApplyAll(doc, ops[i..]) == Unwound([first.reply.value], ApplyAll(first.doc, ops[i + 1..])))
  {
    assert ops[i..][0] == ops[i] && ops[i..][1..] == ops[i + 1..];
    var first := ApplyDoc(doc, ops[i]);
    if first.reply.Ok? {
      assert Timeline.Init([first.reply.value]) == [];
    }
  }

  lemma Placed(before: seq<Slide>, was: seq<Slide>, i: nat, t: Slide, rest: seq<Slide>)
    requires |before| == |was| && i < |was| && before[i..] == was[i..]
    ensures before[i := t][i + 1..] == was[i + 1..]
    ensures before[..i] + ([t] + rest) == before[i := t][..i + 1] + rest
    ensures before[i] == was[i]
  {
    assert before[i..][0] == was[i..][0];
    assert before[i..][1..] == was[i..][1..];
    assert before[i := t][..i + 1] == before[..i] + [t];
  }

  lemma EnsureStep(slides: seq<Slide>, i: nat, next: nat)
    requires i < |slides|
    ensures var (t, after) := AssignIds(slides[i], next);
            EnsureFrom(slides[i..], next) == [t] + EnsureFrom(slides[i + 1..], after)
  {
    assert slides[i..][1..] == slides[i + 1..];
  }

  /** What a group comes to when the ops before are undone by `undo` and the
      rest came to `o`. */
  ghost function Unwound(undo: seq<seq<Op>>, o: DocOutcome): DocOutcome
    decreases |undo|
  {
    if undo == [] then o
    else
      var last := Timeline.Last(undo);
      var init := Timeline.Init(undo);
      match o.reply
      case Ok(more) => Unwound(init, DocOutcome(o.doc, Ok(more + last)))
      case Err(e) => Unwound(init, DocOutcome(ApplyAll(o.doc, last).doc, Err(e)))
  }

  /** The lists of inverses joined, last first. */
  function Reversed(undo: seq<seq<Op>>): seq<Op>
    decreases |undo|
  {
    if undo == [] then [] else Timeline.Last(undo) + Reversed(Timeline.Init(undo))
  }

  lemma {:induction false} UnwoundDone(undo: seq<seq<Op>>, doc: Doc, more: seq<Op>)
    ensures Unwound(undo, DocOutcome(doc, Ok(more))) == DocOutcome(doc, Ok(more + Reversed(undo)))
    decreases |undo|
  {
    if undo == [] {
      assert more + [] == more;
    } else {
      UnwoundDone(Timeline.Init(undo), doc, more + Timeline.Last(undo));
      assert more + Timeline.Last(undo) + Reversed(Timeline.Init(undo)) == more + (Timeline.Last(undo) + Reversed(Timeline.Init(undo)));
    }
  }

  /** Undo and redo from each change's inverse ops. */
  class History {
    var undo: seq<seq<Op>>
    var redo: seq<seq<Op>>
    var merge: bool
    var word: bool

    constructor ()
      ensures Value() == Timeline.NO_STEPS
    {
      undo, redo, merge, word := [], [], false, false;
    }

    function Value(): Timeline.Steps
      reads this
    {
      Timeline.Steps(undo, redo, merge, word)
    }

    /** Hand the steps over, leaving none. */
    method Take() returns (steps: Timeline.Steps)
      modifies this
      ensures steps == old(Value()) && Value() == Timeline.NO_STEPS
    {
      steps := Timeline.Steps(undo, redo, merge, word);
      undo, redo, merge, word := [], [], false, false;
    }

    method Put(steps: Timeline.Steps)
      modifies this
      ensures Value() == steps
    {
      undo, redo, merge, word := steps.undo, steps.redo, steps.merge, steps.word;
    }

    method SetMerge(typed: bool)
      modifies this`merge
      ensures Value() == old(Value()).(merge := typed)
    {
      merge := typed;
    }

    method Record(inverse: seq<Op>)
      modifies this
      ensures Value() == Timeline.Record(old(Value()), inverse)
    {
      var typed := merge;
      merge := false;
      if inverse == [] {
        return;
      }
      var wasWord := word;
      word := typed;
      redo := [];
      if typed && wasWord {
        if |inverse| == 1 && undo != [] && |undo[|undo| - 1]| == 1 {
          if Timeline.Coalesces(undo[|undo| - 1][0], inverse[0]) {
            return;
          }
        }
      }
      undo := undo + [inverse];
    }

    method Undo(doc: DeckDoc) returns (done: bool)
      modifies this, doc
      ensures Timeline.Moved(Value(), doc.Value(), done) == Timeline.Undo(old(Value()), old(doc.Value()))
    {
      word := false;
      if undo == [] {
        return false;
      }
      var ops := undo[|undo| - 1];
      undo := undo[..|undo| - 1];
      var reply := doc.ApplyGroup(ops);
      if reply.Ok? {
        redo := redo + [reply.value];
      }
      done := reply.Ok?;
    }

    method Redo(doc: DeckDoc) returns (done: bool)
      modifies this, doc
      ensures Timeline.Moved(Value(), doc.Value(), done) == Timeline.Redo(old(Value()), old(doc.Value()))
    {
      word := false;
      if redo == [] {
        return false;
      }
      var ops := redo[|redo| - 1];
      redo := redo[..|redo| - 1];
      var reply := doc.ApplyGroup(ops);
      if reply.Ok? {
        undo := undo + [reply.value];
      }
      done := reply.Ok?;
    }
  }
}
