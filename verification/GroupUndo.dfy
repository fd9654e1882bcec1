/** Groups of ops: all or nothing, and undone by the group they return. */
module GroupUndo {
  import opened Engine
  import opened Sequences
  import opened Ops
  import opened Numbering
  import opened OpLaws
  import opened GroupLaws
  import opened Inverses

  /** Each op of the group, where it is applied, fits and can be undone. */
  ghost predicate UndoableAll(doc: Doc, ops: seq<Op>)
    decreases |ops|
  {
    ops == [] || (
      && Fits(ops[0])
      && Undoable(doc.slides, ops[0])
      && (ApplyDoc(doc, ops[0]).reply.Ok? ==> UndoableAll(ApplyDoc(doc, ops[0]).doc, ops[1..])))
  }

  /** As `UndoableAll`, and every op applies and brings its own ids: what
      the history stores. */
  ghost predicate Clean(doc: Doc, ops: seq<Op>)
    decreases |ops|
  {
    ops == [] || (
      && Fits(ops[0])
      && Carrying(ops[0])
      && Undoable(doc.slides, ops[0])
      && ApplyDoc(doc, ops[0]).reply.Ok?
      && Clean(ApplyDoc(doc, ops[0]).doc, ops[1..]))
  }

  lemma {:induction false} CleanApplies(doc: Doc, ops: seq<Op>)
    requires Clean(doc, ops)
    ensures ApplyAll(doc, ops).reply.Ok? && UndoableAll(doc, ops) && CarryingAll(ops)
    decreases |ops|
  {
    if ops != [] {
      CleanApplies(ApplyDoc(doc, ops[0]).doc, ops[1..]);
      assert forall i :: 1 <= i < |ops| ==> ops[i] == ops[1..][i - 1];
    }
  }

  // ---------------------------------------------------------------- groups and tombstones

  ghost predicate Same(a: Doc, b: Doc) {
    EraseDoc(a) == EraseDoc(b)
  }

  /** On decks equal up to tombstones, an op that mints no id does the same. */
  lemma DocIgnoresTombstones(a: Doc, b: Doc, x: Op, y: Op)
    requires Same(a, b) && EraseOp(x) == EraseOp(y) && Ready(a.slides) && Carrying(x)
    ensures Same(ApplyDoc(a, x).doc, ApplyDoc(b, y).doc)
    ensures EraseReply(ApplyDoc(a, x).reply) == EraseReply(ApplyDoc(b, y).reply)
  {
    if !x.SetMaster? {
      SameErased(a.slides, b.slides);
      ApplyIgnoresTombstones(a.slides, x);
      ApplyIgnoresTombstones(b.slides, y);
    }
  }

  lemma ReadyDocAfter(doc: Doc, op: Op)
    requires Ready(doc.slides)
    ensures Ready(ApplyDoc(doc, op).doc.slides)
  {
    ReadyAfter(doc.slides, op);
  }

  lemma ErasedTail(xs: seq<Op>, ys: seq<Op>)
    requires EraseOps(xs) == EraseOps(ys)
    ensures |xs| == |ys|
    ensures xs != [] ==> EraseOp(xs[0]) == EraseOp(ys[0]) && EraseOps(xs[1..]) == EraseOps(ys[1..])
  {
    assert |EraseOps(xs)| == |xs| && |EraseOps(ys)| == |ys|;
    if xs != [] {
      assert EraseOps(xs)[0] == EraseOp(xs[0]) && EraseOps(ys)[0] == EraseOp(ys[0]);
      assert EraseOps(xs[1..]) == EraseOps(xs)[1..];
      assert EraseOps(ys[1..]) == EraseOps(ys)[1..];
    }
  }

  lemma ErasedJoin(a: seq<Op>, b: seq<Op>)
    ensures EraseOps(a + b) == EraseOps(a) + EraseOps(b)
  {
  }

  /** A group that mints no id does the same on decks, and in versions,
      equal up to tombstones: the same error, or equal decks and inverses. */
  lemma {:induction false} GroupIgnoresTombstones(a: Doc, b: Doc, xs: seq<Op>, ys: seq<Op>)
    requires Same(a, b) && EraseOps(xs) == EraseOps(ys) && Ready(a.slides) && CarryingAll(xs)
    ensures EraseReply(ApplyAll(a, xs).reply) == EraseReply(ApplyAll(b, ys).reply)
    ensures ApplyAll(a, xs).reply.Ok? ==> Same(ApplyAll(a, xs).doc, ApplyAll(b, ys).doc)
    decreases |xs|
  {
    ErasedTail(xs, ys);
    if xs != [] {
      assert Carrying(xs[0]);
      DocIgnoresTombstones(a, b, xs[0], ys[0]);
      var p, q := ApplyDoc(a, xs[0]), ApplyDoc(b, ys[0]);
      if p.reply.Ok? {
        ReadyDocAfter(a, xs[0]);
        assert CarryingAll(xs[1..]);
        GroupIgnoresTombstones(p.doc, q.doc, xs[1..], ys[1..]);
        var r, s := ApplyAll(p.doc, xs[1..]).reply, ApplyAll(q.doc, ys[1..]).reply;
        if r.Ok? {
          ErasedJoin(r.value, p.reply.value);
          ErasedJoin(s.value, q.reply.value);
        }
      }
    }
  }

  lemma {:induction false} CleanIgnoresTombstones(a: Doc, b: Doc, xs: seq<Op>)
    requires Same(a, b) && Valid(a.slides) && Clean(a, xs)
    ensures Clean(b, xs)
    decreases |xs|
  {
    if xs != [] {
      SameErased(a.slides, b.slides);
      DocIgnoresTombstones(a, b, xs[0], xs[0]);
      DocAfter(a, xs[0]);
      UndoableErased(a.slides, b.slides, xs[0]);
      CleanIgnoresTombstones(ApplyDoc(a, xs[0]).doc, ApplyDoc(b, xs[0]).doc, xs[1..]);
    }
  }

  lemma UndoableErased(a: seq<Slide>, b: seq<Slide>, op: Op)
    requires Erase(a) == Erase(b)
    ensures Undoable(a, op) <==> Undoable(b, op)
  {
    if op.InsertObject? {
      SameErased(a, b);
      ErasedPos(a, op.slide);
      ErasedPos(b, op.slide);
      var i := SlidePos(a, op.slide);
      if i.Some? {
        assert EraseSlide(a[i.value]) == EraseSlide(b[i.value]);
      }
    }
  }

  // ---------------------------------------------------------------- the inverse of a group

  lemma Tail(xs: seq<Op>, ys: seq<Op>)
    requires xs != []
    ensures (xs + ys)[0] == xs[0] && (xs + ys)[1..] == xs[1..] + ys && xs + ys != []
  {
  }

  lemma Step(doc: Doc, ops: seq<Op>)
    requires ops != [] && ApplyDoc(doc, ops[0]).reply.Ok?
    requires ApplyAll(ApplyDoc(doc, ops[0]).doc, ops[1..]).reply.Ok?
    ensures var first := ApplyDoc(doc, ops[0]);
            var rest := ApplyAll(first.doc, ops[1..]);
            ApplyAll(doc, ops) == DocOutcome(rest.doc, Ok(rest.reply.value + first.reply.value))
  {
  }

  lemma Regrouped(a: seq<Op>, b: seq<Op>, c: seq<Op>)
    ensures (a + b) + c == a + (b + c)
  {
  }

  lemma JoinedStep(doc: Doc, xs: seq<Op>, ys: seq<Op>, n: DocOutcome, o: DocOutcome)
    requires xs != [] && ApplyDoc(doc, xs[0]).reply.Ok? && n.reply.Ok? && o.reply.Ok?
    requires ApplyAll(ApplyDoc(doc, xs[0]).doc, xs[1..] + ys) == DocOutcome(o.doc, Ok(o.reply.value + n.reply.value))
    ensures ApplyAll(doc, xs + ys) ==
            DocOutcome(o.doc, Ok(o.reply.value + (n.reply.value + ApplyDoc(doc, xs[0]).reply.value)))
  {
    hide ApplyAll, ApplyDoc, Short;
    Tail(xs, ys);
    Step(doc, xs + ys);
    Regrouped(o.reply.value, n.reply.value, ApplyDoc(doc, xs[0]).reply.value);
  }

  lemma {:induction false} Joined(doc: Doc, xs: seq<Op>, ys: seq<Op>)
    requires ApplyAll(doc, xs).reply.Ok?
    requires ApplyAll(ApplyAll(doc, xs).doc, ys).reply.Ok?
    ensures var m := ApplyAll(doc, xs);
            var o := ApplyAll(m.doc, ys);
            ApplyAll(doc, xs + ys) == DocOutcome(o.doc, Ok(o.reply.value + m.reply.value))
    decreases |xs|
  {
    var o := ApplyAll(ApplyAll(doc, xs).doc, ys);
    if xs == [] {
      assert xs + ys == ys;
      assert o.reply.value + [] == o.reply.value;
    } else {
      var first := ApplyDoc(doc, xs[0]);
      var n := ApplyAll(first.doc, xs[1..]);
      Step(doc, xs);
      Joined(first.doc, xs[1..], ys);
      JoinedStep(doc, xs, ys, n, o);
    }
  }

  lemma {:induction false} CleanJoined(doc: Doc, xs: seq<Op>, ys: seq<Op>)
    requires Clean(doc, xs) && Clean(ApplyAll(doc, xs).doc, ys)
    ensures Clean(doc, xs + ys)
    decreases |xs|
  {
    if xs == [] {
      assert xs + ys == ys;
    } else {
      var next := ApplyDoc(doc, xs[0]).doc;
      CleanApplies(next, xs[1..]);
      Step(doc, xs);
      CleanJoined(next, xs[1..], ys);
      Tail(xs, ys);
    }
  }

  /** The inverse of an op brings its own ids, applies, and can be undone. */
  lemma InverseIsClean(doc: Doc, op: Op)
    requires Valid(doc.slides) && Fits(op) && ApplyDoc(doc, op).reply.Ok?
    ensures Clean(ApplyDoc(doc, op).doc, ApplyDoc(doc, op).reply.value)
  {
    var o := ApplyDoc(doc, op);
    var inverse := o.reply.value;
    InverseRestores(doc, op);
    if inverse != [] {
      InverseSays(o.doc, inverse);
      FirstIsClean(doc, op);
      assert Clean(ApplyDoc(o.doc, inverse[0]).doc, inverse[1..]) by {
        if |inverse| == 2 {
          var mid := ApplyDoc(o.doc, inverse[0]).doc;
          assert inverse[1..][1..] == [];
          assert Clean(ApplyDoc(mid, inverse[1]).doc, inverse[1..][1..]);
        }
      }
    }
  }

  lemma FirstIsClean(doc: Doc, op: Op)
    requires Valid(doc.slides) && ApplyDoc(doc, op).reply.Ok? && ApplyDoc(doc, op).reply.value != []
    ensures var o := ApplyDoc(doc, op);
            Fits(o.reply.value[0]) && Carrying(o.reply.value[0]) && Undoable(o.doc.slides, o.reply.value[0])
  {
    hide Bury, Relocate, Insert, Remove, NoDup, AssignIds, NextId, MaxId;
    ReadyStays(doc.slides);
    match op
    case DeleteSlide(slide) =>
      assert Sound(doc.slides[SlidePos(doc.slides, slide).value]);
    case DeleteObject(slide, id) =>
      var i := SlidePos(doc.slides, slide).value;
      OneSlideIs(doc.slides, op);
      SamePos(doc.slides, i, Edit(doc.slides[i], op).0, slide);
    case _ =>
      if OnOneSlide(op) {
        OneSlideIs(doc.slides, op);
      }
  }

  /** Undoing a group: its inverse group brings its own ids, applies, does
      something if the group did, and restores the document up to tombstones. */
  lemma {:induction false} GroupRestores(doc: Doc, ops: seq<Op>)
    requires Valid(doc.slides) && UndoableAll(doc, ops) && ApplyAll(doc, ops).reply.Ok?
    ensures var o := ApplyAll(doc, ops);
            var back := ApplyAll(o.doc, o.reply.value);
            && Valid(o.doc.slides)
            && Clean(o.doc, o.reply.value)
            && back.reply.Ok?
            && Same(back.doc, doc)
            && (o.reply.value != [] ==> back.reply.value != [])
    decreases |ops|
  {
    if ops != [] {
      var first := ApplyDoc(doc, ops[0]);
      var inverse := first.reply.value;
      DocAfter(doc, ops[0]);
      GroupRestores(first.doc, ops[1..]);
      var rest := ApplyAll(first.doc, ops[1..]);
      var more := rest.reply.value;
      var mid := ApplyAll(rest.doc, more);
      InverseRestores(doc, ops[0]);
      InverseIsClean(doc, ops[0]);
      SameErased(mid.doc.slides, first.doc.slides);
      CleanIgnoresTombstones(first.doc, mid.doc, inverse);
      CleanApplies(first.doc, inverse);
      GroupIgnoresTombstones(first.doc, mid.doc, inverse, inverse);
      CleanJoined(rest.doc, more, inverse);
      CleanApplies(mid.doc, inverse);
      Joined(rest.doc, more, inverse);
      EffectiveErased(ApplyAll(first.doc, inverse).reply, ApplyAll(mid.doc, inverse).reply);
    }
  }

  lemma EffectiveErased(a: Reply, b: Reply)
    requires EraseReply(a) == EraseReply(b) && a.Ok?
    ensures b.Ok? && |a.value| == |b.value|
  {
    assert |EraseOps(a.value)| == |a.value|;
    if b.Ok? {
      assert |EraseOps(b.value)| == |b.value|;
    }
  }

  /** A group that fails leaves the document as it was, up to tombstones. */
  lemma {:induction false} FailedGroupRestores(doc: Doc, ops: seq<Op>)
    requires Valid(doc.slides) && UndoableAll(doc, ops) && ApplyAll(doc, ops).reply.Err?
    ensures Same(ApplyAll(doc, ops).doc, doc) && Valid(ApplyAll(doc, ops).doc.slides)
    decreases |ops|
  {
    var first := ApplyDoc(doc, ops[0]);
    if first.reply.Err? {
      FailedOpRestores(doc, ops[0]);
    } else {
      var inverse := first.reply.value;
      DocAfter(doc, ops[0]);
      FailedGroupRestores(first.doc, ops[1..]);
      var rest := ApplyAll(first.doc, ops[1..]);
      InverseRestores(doc, ops[0]);
      InverseIsClean(doc, ops[0]);
      CleanApplies(first.doc, inverse);
      GroupIgnoresTombstones(first.doc, rest.doc, inverse, inverse);
      SameErased(ApplyAll(rest.doc, inverse).doc.slides, doc.slides);
    }
  }

  /** An op that fails changes nothing at all in a numbered deck. */
  lemma FailedOpRestores(doc: Doc, op: Op)
    requires Ready(doc.slides) && ApplyDoc(doc, op).reply.Err?
    ensures ApplyDoc(doc, op).doc == doc
  {
    ReadyStays(doc.slides);
    if OnOneSlide(op) {
      OneSlideIs(doc.slides, op);
      var i := SlidePos(doc.slides, op.slide);
      assert doc.slides[i.value := doc.slides[i.value]] == doc.slides;
    }
  }

  /** An unnumbered deck is numbered even by an op that fails: exactly the
      numbered decks are left as they were. */
  lemma FailedOpNumbers(slides: seq<Slide>, op: Op)
    requires Apply(slides, op).reply.Err?
    ensures Apply(slides, op).slides == EnsureIds(slides)
    ensures Apply(slides, op).slides == slides <==> Ready(slides)
  {
    EnsureIdsReady(slides);
    var ready := EnsureIds(slides);
    ReadyStays(ready);
    FailedOpRestores(Doc(ready, []), op);
    if Ready(slides) {
      ReadyStays(slides);
    }
  }
}
