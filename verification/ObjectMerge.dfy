/** One object edited by two peers at once: field by field, what the merge
    makes of it; and when it makes nothing. */
module ObjectMerges {
  import opened Engine
  import opened Sequences
  import opened Ops
  import opened Numbering
  import opened OpLaws
  import opened Inverses
  import opened Tree
  import opened Replicas
  import opened RegisterLaws
  import opened ReplicaRel
  import opened ReplicaRebuild
  import opened Merging

  // ---------------------------------------------------------------- one register

  function RegOf(d: Loro, n: TreeID, k: Key): Option<Reg> {
    if (n, k) in d.regs then Some(d.regs[(n, k)]) else None
  }

  /** How many registers writing `list` changes, up to that of `k`. */
  function Writes(d: Loro, n: TreeID, values: Key -> Option<Value>, list: seq<Key>, k: Key): nat
    decreases |list|
  {
    if list == [] then 0
    else (if Get(d, n, list[0]) != values(list[0]) then 1 else 0) + if list[0] == k then 0 else Writes(d, n, values, list[1..], k)
  }

  lemma {:induction false} OtherKeys(d: Loro, n: TreeID, values: Key -> Option<Value>, list: seq<Key>, k: Key)
    requires k !in list
    ensures RegOf(PutKeys(d, n, values, list), n, k) == RegOf(d, n, k)
    decreases |list|
  {
    if list != [] {
      assert list[0] in list && forall l :: l in list[1..] ==> l in list;
      OtherKeys(Put(d, n, list[0], values(list[0])), n, values, list[1..], k);
    }
  }

  lemma {:induction false} WritesSame(d: Loro, e: Loro, n: TreeID, values: Key -> Option<Value>, list: seq<Key>, k: Key)
    requires forall l :: l in list ==> Get(e, n, l) == Get(d, n, l)
    ensures Writes(e, n, values, list, k) == Writes(d, n, values, list, k)
    decreases |list|
  {
    hide Get;
    if list != [] {
      assert list[0] in list && forall l :: l in list[1..] ==> l in list;
      WritesSame(d, e, n, values, list[1..], k);
    }
  }

  lemma PutReg(d: Loro, n: TreeID, k: Key, v: Option<Value>)
    ensures var e := Put(d, n, k, v);
            && e.peer == d.peer && e.clock == d.clock + (if Get(d, n, k) != v then 1 else 0)
            && RegOf(e, n, k) == if Get(d, n, k) != v then Some(Reg(v, d.clock + 1, d.peer)) else RegOf(d, n, k)
  {
  }

  /** A register that changes is written at its turn; one that holds its value
      already is not. */
  lemma {:induction false} KeyWritten(d: Loro, n: TreeID, values: Key -> Option<Value>, list: seq<Key>, k: Key)
    requires NoDup(list) && k in list
    ensures RegOf(PutKeys(d, n, values, list), n, k) ==
            if Get(d, n, k) == values(k) then RegOf(d, n, k)
            else Some(Reg(values(k), d.clock + Writes(d, n, values, list, k), d.peer))
    decreases |list|
  {
    hide Get, Put, RegOf;
    var first := list[0];
    var next := Put(d, n, first, values(first));
    PutReg(d, n, first, values(first));
    assert NoDup(list[1..]) && first !in list[1..];
    if first == k {
      OtherKeys(next, n, values, list[1..], k);
    } else {
      assert k in list[1..];
      OtherReg(d, n, first, values(first), k);
      KeyWritten(next, n, values, list[1..], k);
      WritesSame(d, next, n, values, list[1..], k);
    }
  }

  lemma OtherReg(d: Loro, n: TreeID, k: Key, v: Option<Value>, l: Key)
    requires l != k
    ensures RegOf(Put(d, n, k, v), n, l) == RegOf(d, n, l) && Get(Put(d, n, k, v), n, l) == Get(d, n, l)
  {
  }

  // ---------------------------------------------------------------- two edits of one object

  /** The registers of `o` written in the order `order`. */
  function Wrote(d: Loro, n: TreeID, o: SlideObject, order: seq<Key>): Loro {
    PutKeys(d, n, k => ObjectReg(o, k), order)
  }

  /** Any order in which an object may be written: its kind first, and every
      field once. */
  ghost predicate WriteOrder(order: seq<Key>) {
    NoDup(order) && order != [] && order[0] == Kind && forall f: Field :: FieldKey(f) in order
  }

  function WritesOf(d: Loro, n: TreeID, o: SlideObject, order: seq<Key>, k: Key): nat {
    Writes(d, n, k => ObjectReg(o, k), order, k)
  }

  /** Both peers' documents merged: `p` written here, `q` there. */
  function BothWrote(d: Loro, here: nat, there: nat, n: TreeID, p: SlideObject, a: seq<Key>, q: SlideObject, b: seq<Key>,
                     shape: TreeShape): Loro
  {
    Merged(Wrote(d.(peer := here), n, p, a), Wrote(d.(peer := there), n, q, b), shape)
  }

  /** What becomes of a register: a change on one side only stays; of two the
      later in its edit, of two at one turn that of the larger peer (`q`'s). */
  function Joined(d: Loro, n: TreeID, p: SlideObject, a: seq<Key>, q: SlideObject, b: seq<Key>, k: Key): Option<Value> {
    if ObjectReg(p, k) == Get(d, n, k) then ObjectReg(q, k)
    else if ObjectReg(q, k) == Get(d, n, k) then ObjectReg(p, k)
    else if WritesOf(d, n, p, a, k) > WritesOf(d, n, q, b, k) then ObjectReg(p, k)
    else ObjectReg(q, k)
  }

  lemma WroteReg(d: Loro, peer: nat, n: TreeID, o: SlideObject, order: seq<Key>, k: Key)
    requires NoDup(order) && k in order
    ensures RegOf(Wrote(d.(peer := peer), n, o, order), n, k) ==
            if Get(d, n, k) == ObjectReg(o, k) then RegOf(d, n, k)
            else Some(Reg(ObjectReg(o, k), d.clock + WritesOf(d, n, o, order, k), peer))
  {
    hide PutKeys, Writes, ObjectReg;
    var e := d.(peer := peer);
    KeyWritten(e, n, k => ObjectReg(o, k), order, k);
    WritesSame(d, e, n, k => ObjectReg(o, k), order, k);
  }

  lemma MergedReg(a: Loro, b: Loro, shape: TreeShape, n: TreeID, k: Key)
    ensures var p, q, r := RegOf(a, n, k), RegOf(b, n, k), RegOf(Merged(a, b, shape), n, k);
            if p.None? then r == q
            else if q.None? then r == p
            else r == Some(Newer(p.value, q.value))
  {
  }

  lemma RegGet(d: Loro, n: TreeID, k: Key)
    ensures Get(d, n, k) == if RegOf(d, n, k).Some? then RegOf(d, n, k).value.value else None
    ensures Stamped(d) && RegOf(d, n, k).Some? ==> RegOf(d, n, k).value.clock <= d.clock
  {
  }

  lemma {:induction false} SomeWrites(d: Loro, n: TreeID, values: Key -> Option<Value>, list: seq<Key>, k: Key)
    requires k in list && Get(d, n, k) != values(k)
    ensures Writes(d, n, values, list, k) > 0
    decreases |list|
  {
    hide Get;
    if list[0] != k {
      assert k in list[1..];
      SomeWrites(d, n, values, list[1..], k);
    }
  }

  /** Register by register, the merge is the join of the two edits. */
  lemma KeyMerged(d: Loro, here: nat, there: nat, n: TreeID, p: SlideObject, a: seq<Key>, q: SlideObject, b: seq<Key>,
                  shape: TreeShape, k: Key)
    requires Stamped(d) && here < there && NoDup(a) && NoDup(b) && k in a && k in b
    ensures Get(BothWrote(d, here, there, n, p, a, q, b, shape), n, k) == Joined(d, n, p, a, q, b, k)
  {
    hide Wrote, WritesOf, Writes, Merged, ObjectReg, RegOf, Get, Stamped;
    var x, y := Wrote(d.(peer := here), n, p, a), Wrote(d.(peer := there), n, q, b);
    WroteReg(d, here, n, p, a, k);
    WroteReg(d, there, n, q, b, k);
    MergedReg(x, y, shape, n, k);
    RegGet(d, n, k);
    RegGet(Merged(x, y, shape), n, k);
    WritesAtTurn(d, n, p, a, k);
    WritesAtTurn(d, n, q, b, k);
  }

  lemma WritesAtTurn(d: Loro, n: TreeID, o: SlideObject, order: seq<Key>, k: Key)
    requires k in order
    ensures ObjectReg(o, k) != Get(d, n, k) ==> WritesOf(d, n, o, order, k) > 0
  {
    if ObjectReg(o, k) != Get(d, n, k) {
      SomeWrites(d, n, k => ObjectReg(o, k), order, k);
    }
  }

  // ---------------------------------------------------------------- what object comes of it

  /** The edit whose kind the merge has: the one that changed it, and of two the
      larger peer's. */
  function Winner(d: Loro, n: TreeID, p: SlideObject, q: SlideObject): SlideObject {
    if Get(d, n, Kind) == Some(VKind(KindOf(q))) then p else q
  }

  function Loser(d: Loro, n: TreeID, p: SlideObject, q: SlideObject): SlideObject {
    if Get(d, n, Kind) == Some(VKind(KindOf(q))) then q else p
  }

  /** A field of the winning kind is there unless the other edit removed it: the
      other kind has it too, or the node had none, or it was set anew, later than
      it was removed. */
  predicate Survives(d: Loro, n: TreeID, p: SlideObject, a: seq<Key>, q: SlideObject, b: seq<Key>, f: Field) {
    var w, l := Winner(d, n, p, q), Loser(d, n, p, q);
    || Owns(KindOf(l), f)
    || Get(d, n, FieldKey(f)) == None
    || (FieldReg(w, f) != Get(d, n, FieldKey(f))
        && (if Get(d, n, Kind) == Some(VKind(KindOf(q))) then WritesOf(d, n, p, a, FieldKey(f)) > WritesOf(d, n, q, b, FieldKey(f))
            else WritesOf(d, n, q, b, FieldKey(f)) >= WritesOf(d, n, p, a, FieldKey(f))))
  }

  lemma FirstWrite(d: Loro, n: TreeID, o: SlideObject, order: seq<Key>)
    requires WriteOrder(order)
    ensures WritesOf(d, n, o, order, Kind) == if Get(d, n, Kind) == Some(VKind(KindOf(o))) then 0 else 1
  {
    hide KindOf;
  }

  lemma KindJoined(d: Loro, n: TreeID, p: SlideObject, a: seq<Key>, q: SlideObject, b: seq<Key>)
    requires WriteOrder(a) && WriteOrder(b)
    ensures Joined(d, n, p, a, q, b, Kind) == Some(VKind(KindOf(Winner(d, n, p, q))))
  {
    hide WriteOrder, WritesOf, KindOf;
    FirstWrite(d, n, p, a);
    FirstWrite(d, n, q, b);
  }

  lemma FieldJoined(d: Loro, n: TreeID, p: SlideObject, a: seq<Key>, q: SlideObject, b: seq<Key>, f: Field)
    ensures FieldTyped(f, Joined(d, n, p, a, q, b, FieldKey(f)))
    ensures Owns(KindOf(Winner(d, n, p, q)), f) ==>
              (Joined(d, n, p, a, q, b, FieldKey(f)).Some? <==> Survives(d, n, p, a, q, b, f))
  {
    hide WritesOf, KindOf, Owns, FieldReg, FieldTyped;
    ObjectTyped(p, f);
    ObjectTyped(q, f);
  }

  /** Two peers write one node's object at once, of whatever kinds. The merge
      makes an object exactly when every field the winning kind needs survives
      the other edit; it then has that kind, and each field as joined. */
  lemma EditsMerge(d: Loro, here: nat, there: nat, n: TreeID, p: SlideObject, a: seq<Key>, q: SlideObject, b: seq<Key>,
                   shape: TreeShape)
    requires Stamped(d) && here < there && WriteOrder(a) && WriteOrder(b)
    ensures var o := ReadObject(BothWrote(d, here, there, n, p, a, q, b, shape), n);
            var kind := KindOf(Winner(d, n, p, q));
            && (o.Some? <==> forall f :: Needs(kind, f) ==> Survives(d, n, p, a, q, b, f))
            && (o.Some? ==> KindOf(o.value) == kind)
            && (o.Some? ==> forall f :: Needs(kind, f) ==> FieldReg(o.value, f) == Joined(d, n, p, a, q, b, FieldKey(f)))
            && (o.Some? && kind == AnImage && Joined(d, n, p, a, q, b, FieldKey(FCrop)).Some? ==>
                  FieldReg(o.value, FCrop) == Joined(d, n, p, a, q, b, FieldKey(FCrop)))
  {
    hide Get, Joined, Survives, BothWrote, ReadObject, Stamped, KindOf, Winner, Owns, FieldTyped, FieldReg;
    var m := BothWrote(d, here, there, n, p, a, q, b, shape);
    assert Kind in a && Kind in b by {
      assert a[0] == Kind && b[0] == Kind;
    }
    KeyMerged(d, here, there, n, p, a, q, b, shape, Kind);
    KindJoined(d, n, p, a, q, b);
    forall f: Field
      ensures Get(m, n, FieldKey(f)) == Joined(d, n, p, a, q, b, FieldKey(f)) && FieldTyped(f, Get(m, n, FieldKey(f)))
      ensures Owns(KindOf(Winner(d, n, p, q)), f) ==> (Get(m, n, FieldKey(f)).Some? <==> Survives(d, n, p, a, q, b, f))
    {
      KeyMerged(d, here, there, n, p, a, q, b, shape, FieldKey(f));
      FieldJoined(d, n, p, a, q, b, f);
    }
    RegistersMake(m, n, KindOf(Winner(d, n, p, q)));
  }

  // ---------------------------------------------------------------- edits that keep the kind

  /** The node's registers are those of `o`. */
  ghost predicate Holds(d: Loro, n: TreeID, o: SlideObject) {
    Get(d, n, Kind) == Some(VKind(KindOf(o))) && forall f :: Owns(KindOf(o), f) ==> Get(d, n, FieldKey(f)) == FieldReg(o, f)
  }

  /** Where neither edit changes the kind nothing is lost: a field changed by
      one of them only keeps that change, and one changed by both has one of the
      two, whole. */
  lemma SameKindMerges(d: Loro, here: nat, there: nat, n: TreeID, o: SlideObject, p: SlideObject, a: seq<Key>,
                       q: SlideObject, b: seq<Key>, shape: TreeShape)
    requires Stamped(d) && here < there && WriteOrder(a) && WriteOrder(b)
    requires Holds(d, n, o) && KindOf(p) == KindOf(o) && KindOf(q) == KindOf(o)
    ensures var r := ReadObject(BothWrote(d, here, there, n, p, a, q, b, shape), n);
            && r.Some? && KindOf(r.value) == KindOf(o)
            && (forall f :: FieldReg(p, f) == FieldReg(o, f) ==> FieldReg(r.value, f) == FieldReg(q, f))
            && (forall f :: FieldReg(q, f) == FieldReg(o, f) ==> FieldReg(r.value, f) == FieldReg(p, f))
            && (forall f :: FieldReg(r.value, f) == FieldReg(p, f) || FieldReg(r.value, f) == FieldReg(q, f))
  {
    hide Get, BothWrote, ReadObject, Stamped, KindOf, Owns, FieldReg, WritesOf, WriteOrder;
    EditsMerge(d, here, there, n, p, a, q, b, shape);
    var kind := KindOf(o);
    forall f | Needs(kind, f)
      ensures Survives(d, n, p, a, q, b, f)
    {
    }
    var r := ReadObject(BothWrote(d, here, there, n, p, a, q, b, shape), n).value;
    forall f
      ensures Owns(kind, f) ==> FieldReg(r, f) == Joined(d, n, p, a, q, b, FieldKey(f))
      ensures !Owns(kind, f) ==> FieldReg(r, f) == None && FieldReg(p, f) == None && FieldReg(q, f) == None
    {
      ObjectTyped(r, f);
      ObjectTyped(p, f);
      ObjectTyped(q, f);
      CropOnly(kind, f);
    }
  }

  /** One peer moves a text box while another edits its text: both are kept. */
  lemma MoveAndTextKept(d: Loro, here: nat, there: nat, n: TreeID, o: SlideObject, x: real, y: real, text: string,
                        runs: seq<TextRun>, body: TextBody, a: seq<Key>, b: seq<Key>, shape: TreeShape)
    requires Stamped(d) && here < there && WriteOrder(a) && WriteOrder(b) && o.TextBox? && Holds(d, n, o)
    ensures var moved := TextBox(o.text, x, y, o.w, o.h, o.rotation, o.runs, o.body);
            var typed := TextBox(text, o.x, o.y, o.w, o.h, o.rotation, runs, body);
            var both := TextBox(text, x, y, o.w, o.h, o.rotation, runs, body);
            && ReadObject(BothWrote(d, here, there, n, moved, a, typed, b, shape), n) == Some(both)
            && ReadObject(BothWrote(d, here, there, n, typed, a, moved, b, shape), n) == Some(both)
  {
    hide BothWrote, ReadObject, Stamped, WriteOrder, Holds;
    var moved := TextBox(o.text, x, y, o.w, o.h, o.rotation, o.runs, o.body);
    var typed := TextBox(text, o.x, o.y, o.w, o.h, o.rotation, runs, body);
    var both := TextBox(text, x, y, o.w, o.h, o.rotation, runs, body);
    SameKindMerges(d, here, there, n, o, moved, a, typed, b, shape);
    SameKindMerges(d, here, there, n, o, typed, a, moved, b, shape);
    JoinIs(o, moved, typed, both, ReadObject(BothWrote(d, here, there, n, moved, a, typed, b, shape), n).value);
    JoinIs(o, typed, moved, both, ReadObject(BothWrote(d, here, there, n, typed, a, moved, b, shape), n).value);
  }

  lemma JoinIs(o: SlideObject, p: SlideObject, q: SlideObject, both: SlideObject, r: SlideObject)
    requires KindOf(r) == KindOf(both)
    requires forall f :: FieldReg(p, f) == FieldReg(o, f) ==> FieldReg(r, f) == FieldReg(q, f)
    requires forall f :: FieldReg(q, f) == FieldReg(o, f) ==> FieldReg(r, f) == FieldReg(p, f)
    requires forall f :: FieldReg(both, f) == if FieldReg(p, f) == FieldReg(o, f) then FieldReg(q, f) else FieldReg(p, f)
    requires forall f :: FieldReg(p, f) == FieldReg(o, f) || FieldReg(q, f) == FieldReg(o, f)
    ensures r == both
  {
    hide FieldReg, KindOf;
    forall f
      ensures FieldReg(r, f) == FieldReg(both, f)
    {
    }
    SameFields(r, both);
  }

  // ---------------------------------------------------------------- edits that change it

  /** The kinds clash: one peer makes a text box a circle, the other something
      as wide as it was. Each has its own, and the merge has none, though the
      node is live. */
  lemma KindsClash(d: Loro, here: nat, there: nat, n: TreeID, circle: SlideObject, a: seq<Key>, box: SlideObject, b: seq<Key>,
                   shape: TreeShape)
    requires Stamped(d) && here < there && WriteOrder(a) && WriteOrder(b) && circle.Circle? && box.Boxed?
    requires Get(d, n, Kind) == Some(VKind(ATextBox)) && Get(d, n, FieldKey(FW)) == Some(VReal(box.w))
    ensures ReadObject(BothWrote(d, here, there, n, circle, a, box, b, shape), n) == None
  {
    hide BothWrote, ReadObject, Stamped, WriteOrder, WritesOf;
    EditsMerge(d, here, there, n, circle, a, box, b, shape);
    assert Needs(KindOf(box), FW) && !Survives(d, n, circle, a, box, b, FW);
  }

  /** An edit that keeps the kind takes nothing from one that changes it to a
      kind with every field of the old. */
  lemma WiderKindMerges(d: Loro, here: nat, there: nat, n: TreeID, o: SlideObject, p: SlideObject, a: seq<Key>,
                        q: SlideObject, b: seq<Key>, shape: TreeShape)
    requires Stamped(d) && here < there && WriteOrder(a) && WriteOrder(b)
    requires Holds(d, n, o) && (KindOf(p) == KindOf(o) || KindOf(q) == KindOf(o))
    requires forall f :: Needs(KindOf(Winner(d, n, p, q)), f) ==> Owns(KindOf(o), f) || Get(d, n, FieldKey(f)) == None
    ensures ReadObject(BothWrote(d, here, there, n, p, a, q, b, shape), n).Some?
  {
    hide BothWrote, ReadObject, Stamped, WriteOrder, WritesOf, KindOf, Owns, FieldReg;
    EditsMerge(d, here, there, n, p, a, q, b, shape);
  }

  // ---------------------------------------------------------------- as recorded

  /** The order in which an edit writes is such an order. */
  lemma ObjectOrder(o: SlideObject)
    ensures WriteOrder(ObjectKeys(o))
  {
    hide FieldKeys, NoDup, KindOf, FIELDS;
    forall f: Field
      ensures NoDup(ObjectKeys(o)) && FieldKey(f) in ObjectKeys(o)
    {
      ObjectKeyList(o, f);
    }
    ObjectKeyList(o, FX);
  }

  /** Recording the edit of an object writes that object, and no more. */
  lemma SetRecorded(r: Rep, past: Past, slide: nat, id: nat, o: SlideObject)
    requires Rel(r, past) && SlidePos(r.deck, slide).Some? && id in r.deck[SlidePos(r.deck, slide).value].ids.objects
    ensures id in r.nodes && RecordGroup(r, [SetObject(slide, id, o)]).0.doc == WriteObject(r.doc, r.nodes[id], o)
  {
    hide WriteObject, ReviveShown, Rel, RecordOp, RecordGroup, Ready;
    RevivedAlready(r, past);
    ObjectKnown(r, past, SlidePos(r.deck, slide).value, id);
    SetWrites(r, slide, id, o);
    OneRecorded(r, SetObject(slide, id, o));
  }

  lemma OneRecorded(r: Rep, op: Op)
    requires ReviveShown(r.doc, r.nodes, r.deck) == r.doc && RecordOp(r, op).1
    ensures RecordGroup(r, [op]).0 == RecordOp(r, op).0
  {
    hide RecordOp, ReviveShown;
    assert r.(doc := r.doc) == r && [op][1..] == [];
    var q := RecordOp(r, op).0;
    assert RecordOps(q, []) == (q, true);
    assert RecordOps(r, [op]) == RecordOps(q, []);
  }

  lemma ObjectKnown(r: Rep, past: Past, i: nat, id: nat)
    requires Rel(r, past) && i < |r.deck| && id in r.deck[i].ids.objects
    ensures id in r.nodes && r.deck[i].ids.slide in r.nodes && Ready(r.deck) && |r.deck[i].objects| == |r.deck[i].ids.objects|
  {
    hide WellFormed, PastRel, RootRel, BuildsRel, NodesOk;
    assert r.deck[i] in r.deck;
  }

  lemma SetWrites(r: Rep, slide: nat, id: nat, o: SlideObject)
    requires Ready(r.deck) && slide in r.nodes && id in r.nodes
    requires SlidePos(r.deck, slide).Some?
    requires var s := r.deck[SlidePos(r.deck, slide).value]; id in s.ids.objects && |s.objects| == |s.ids.objects|
    ensures RecordOp(r, SetObject(slide, id, o)).0.doc == WriteObject(r.doc, r.nodes[id], o) && RecordOp(r, SetObject(slide, id, o)).1
  {
    hide WriteObject, Ops.Apply;
    var op := SetObject(slide, id, o);
    OneSlideIs(r.deck, op);
    var i := SlidePos(r.deck, slide).value;
    var t := Edit(r.deck[i], op).0;
    SamePos(r.deck, i, t, slide);
  }

  /** So for two replicas of one document, each recording an edit of one object,
      everything above is what their merge shows. */
  lemma RecordedEditsMerge(base: Loro, a: Rep, past: Past, sa: nat, ia: nat, p: SlideObject,
                           b: Rep, other: Past, sb: nat, ib: nat, q: SlideObject, shape: TreeShape)
    requires Rel(a, past) && SlidePos(a.deck, sa).Some? && ia in a.deck[SlidePos(a.deck, sa).value].ids.objects
    requires Rel(b, other) && SlidePos(b.deck, sb).Some? && ib in b.deck[SlidePos(b.deck, sb).value].ids.objects
    requires a.doc == base.(peer := a.doc.peer) && b.doc == base.(peer := b.doc.peer)
    requires ia in a.nodes && ib in b.nodes && a.nodes[ia] == b.nodes[ib]
    ensures Merged(RecordGroup(a, [SetObject(sa, ia, p)]).0.doc, RecordGroup(b, [SetObject(sb, ib, q)]).0.doc, shape) ==
            BothWrote(base, a.doc.peer, b.doc.peer, a.nodes[ia], p, ObjectKeys(p), q, ObjectKeys(q), shape)
    ensures WriteOrder(ObjectKeys(p)) && WriteOrder(ObjectKeys(q))
  {
    hide Rel, RecordGroup, PutKeys, ObjectKeys, Merged;
    SetRecorded(a, past, sa, ia, p);
    SetRecorded(b, other, sb, ib, q);
    ObjectOrder(p);
    ObjectOrder(q);
  }
}
