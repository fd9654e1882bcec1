/** Writing an object or a slide into its node's registers, and reading it back. */
module RegisterLaws {
  import opened Engine
  import opened Sequences
  import opened Ops
  import opened Tree
  import opened Replicas
  import opened TreeLaws

  /** Only registers of `n` other than its tombstone have changed. */
  ghost predicate OnlyRegsOf(d: Loro, e: Loro, n: TreeID) {
    && e.kids == d.kids && e.parent == d.parent && e.next == d.next && e.peer == d.peer
    && (forall m, k :: m != n || k == Deleted ==> Get(e, m, k) == Get(d, m, k))
    && (forall m, k :: (m, k) in e.regs ==> m == n || (m, k) in d.regs)
  }

  lemma OnlyRegsKeep(d: Loro, e: Loro, n: TreeID)
    requires OnlyRegsOf(d, e, n)
    ensures LiveSet(e) == LiveSet(d)
    ensures forall q :: LiveKids(e, q) == LiveKids(d, q)
    ensures WellFormed(d) && n in d.kids ==> WellFormed(e)
  {
    assert forall m :: IsDeleted(e, m) <==> IsDeleted(d, m);
  }

  lemma PutOnly(d: Loro, n: TreeID, k: Key, v: Option<Value>)
    requires k != Deleted
    ensures OnlyRegsOf(d, Put(d, n, k, v), n)
  {
  }

  lemma OnlyRegsTwice(a: Loro, b: Loro, c: Loro, n: TreeID)
    requires OnlyRegsOf(a, b, n) && OnlyRegsOf(b, c, n)
    ensures OnlyRegsOf(a, c, n)
  {
  }

  lemma {:induction false} PutKeysLaw(d: Loro, n: TreeID, values: Key -> Option<Value>, list: seq<Key>)
    requires NoDup(list) && Deleted !in list
    ensures var e := PutKeys(d, n, values, list);
            && OnlyRegsOf(d, e, n)
            && (forall k: Key :: k !in list ==> Get(e, n, k) == Get(d, n, k))
            && (forall k: Key :: k in list ==> Get(e, n, k) == values(k))
    decreases |list|
  {
    if list != [] {
      var k := list[0];
      var next := Put(d, n, k, values(k));
      assert NoDup(list[1..]) && k !in list[1..];
      PutKeysLaw(next, n, values, list[1..]);
      assert forall l :: l in list <==> l == k || l in list[1..];
      PutOnly(d, n, k, values(k));
      OnlyRegsTwice(d, next, PutKeys(d, n, values, list), n);
    }
  }

  lemma {:induction false} FieldKeysHave(kind: ObjectKind, owned: bool, fields: seq<Field>)
    requires NoDup(fields)
    ensures NoDup(FieldKeys(kind, owned, fields))
    ensures forall k :: k in FieldKeys(kind, owned, fields) <==> k.FieldKey? && k.field in fields && Owns(kind, k.field) == owned
  {
    hide Owns;
    if fields != [] {
      assert NoDup(fields[1..]) && fields[0] !in fields[1..];
      FieldKeysHave(kind, owned, fields[1..]);
      assert forall f :: f in fields <==> f == fields[0] || f in fields[1..];
    }
  }

  function FieldRank(f: Field): nat {
    match f
    case FBody => 0
    case FChart => 1
    case FCrop => 2
    case FH => 3
    case FKind => 4
    case FPath => 5
    case FR => 6
    case FRotation => 7
    case FRuns => 8
    case FStyle => 9
    case FTable => 10
    case FText => 11
    case FW => 12
    case FX => 13
    case FY => 14
  }

  lemma FieldAt(f: Field)
    ensures FieldRank(f) < |FIELDS| && FIELDS[FieldRank(f)] == f
  {
  }

  lemma AllFields(f: Field)
    ensures NoDup(FIELDS) && f in FIELDS
  {
    FieldAt(f);
    forall i, j | 0 <= i < j < |FIELDS|
      ensures FIELDS[i] != FIELDS[j]
    {
      assert FieldRank(FIELDS[i]) == i && FieldRank(FIELDS[j]) == j;
    }
  }

  lemma NoDupJoin<T>(a: seq<T>, b: seq<T>)
    requires NoDup(a) && NoDup(b) && forall x :: x in a ==> x !in b
    ensures NoDup(a + b)
  {
    var c := a + b;
    forall i, j | 0 <= i < j < |c|
      ensures c[i] != c[j]
    {
      if i < |a| <= j {
        assert c[i] in a && c[j] == b[j - |a|] && b[j - |a|] in b;
      }
    }
  }

  /** Whatever an object is, every field any kind has is set or removed. */
  lemma ObjectKeyList(o: SlideObject, f: Field)
    ensures NoDup(ObjectKeys(o))
    ensures Deleted !in ObjectKeys(o)
    ensures Kind in ObjectKeys(o) && FieldKey(f) in ObjectKeys(o)
  {
    hide FIELDS, FieldKeys, Owns, NoDup, KindOf;
    AllFields(f);
    var a, b := FieldKeys(KindOf(o), false, FIELDS), FieldKeys(KindOf(o), true, FIELDS);
    FieldKeysHave(KindOf(o), false, FIELDS);
    FieldKeysHave(KindOf(o), true, FIELDS);
    assert FieldKey(f) in a || FieldKey(f) in b by {
      assert FieldKey(f).field == f;
    }
    NoDupJoin(a, b);
    OneKey();
    NoDupJoin([Kind], a + b);
  }

  lemma OneKey()
    ensures NoDup([Kind])
  {
  }

  lemma SlideKeyList(s: Slide)
    ensures NoDup(SlideKeys(s))
    ensures Deleted !in SlideKeys(s)
    ensures forall k: Key :: !k.Kind? && !k.FieldKey? && !k.Deleted? ==> k in SlideKeys(s)
  {
    var list := SlideKeys(s);
    assert list[0] == TitleKey && list[1] == Background && list[2] == Picture && list[3] == Notes;
    assert list[4] == MasterId && list[5] == TransitionKey && list[6] == LayoutId && list[7] == Hidden && list[8] == Builds;
  }

  // ---------------------------------------------------------------- what registers make

  /** The type a field's register has, if it has a value. */
  predicate FieldTyped(f: Field, v: Option<Value>) {
    v.Some? ==>
      match f
      case FX => v.value.VReal?
      case FY => v.value.VReal?
      case FW => v.value.VReal?
      case FH => v.value.VReal?
      case FR => v.value.VReal?
      case FRotation => v.value.VReal?
      case FRuns => v.value.VRuns?
      case FBody => v.value.VBody?
      case _ => v.value.VText?
  }

  ghost predicate Typed(d: Loro, n: TreeID) {
    forall f: Field :: FieldTyped(f, Get(d, n, FieldKey(f)))
  }

  lemma ObjectTyped(o: SlideObject, f: Field)
    ensures FieldTyped(f, FieldReg(o, f))
    ensures FieldReg(o, f).Some? <==> Owns(KindOf(o), f)
  {
  }

  /** What an object of this kind cannot do without: all its fields, but for a
      picture's crop. */
  predicate Needs(kind: ObjectKind, f: Field) {
    Owns(kind, f) && f != FCrop
  }

  lemma TextMakes(d: Loro, n: TreeID, x: real, y: real, w: real, h: real, rotation: real)
    requires Typed(d, n)
    ensures var o := ReadText(d, n, x, y, w, h, rotation);
            && (o.Some? <==> Get(d, n, FieldKey(FText)).Some? && Get(d, n, FieldKey(FRuns)).Some? && Get(d, n, FieldKey(FBody)).Some?)
            && (o.Some? ==> KindOf(o.value) == ATextBox
                            && o.value == TextBox(o.value.text, x, y, w, h, rotation, o.value.runs, o.value.body)
                            && FieldReg(o.value, FText) == Get(d, n, FieldKey(FText))
                            && FieldReg(o.value, FRuns) == Get(d, n, FieldKey(FRuns))
                            && FieldReg(o.value, FBody) == Get(d, n, FieldKey(FBody)))
  {
    hide Get;
    assert FieldTyped(FText, Get(d, n, FieldKey(FText)));
    assert FieldTyped(FRuns, Get(d, n, FieldKey(FRuns)));
    assert FieldTyped(FBody, Get(d, n, FieldKey(FBody)));
  }

  /** The fields of a box that are none of its place. */
  predicate Inner(f: Field) {
    f == FKind || f == FStyle || f == FPath || f == FCrop || f == FTable || f == FChart
  }

  lemma ContentMakes(d: Loro, n: TreeID, kind: ObjectKind)
    requires Typed(d, n) && kind != ATextBox && kind != ACircle
    ensures var what := ReadContent(d, n, kind);
            && (what.Some? <==> forall f :: Inner(f) && Needs(kind, f) ==> Get(d, n, FieldKey(f)).Some?)
            && (what.Some? ==> KindOf(Boxed(what.value, 0.0, 0.0, 0.0, 0.0, 0.0)) == kind)
            && (what.Some? ==> forall f :: Inner(f) && Needs(kind, f) ==> ContentReg(what.value, f) == Get(d, n, FieldKey(f)))
            && (what.Some? && kind == AnImage && Get(d, n, FieldKey(FCrop)).Some? ==>
                  ContentReg(what.value, FCrop) == Get(d, n, FieldKey(FCrop)))
  {
    hide Get;
    assert FieldTyped(FKind, Get(d, n, FieldKey(FKind))) && FieldTyped(FStyle, Get(d, n, FieldKey(FStyle)));
    assert FieldTyped(FPath, Get(d, n, FieldKey(FPath))) && FieldTyped(FCrop, Get(d, n, FieldKey(FCrop)));
    assert FieldTyped(FTable, Get(d, n, FieldKey(FTable))) && FieldTyped(FChart, Get(d, n, FieldKey(FChart)));
    match kind
    case ARect =>
    case APreset => assert Inner(FKind) && Inner(FStyle) && Needs(APreset, FKind) && Needs(APreset, FStyle);
    case AnImage => assert Inner(FPath) && Needs(AnImage, FPath);
    case ATable => assert Inner(FTable) && Needs(ATable, FTable);
    case AChart => assert Inner(FChart) && Needs(AChart, FChart);
  }

  lemma RealTyped(d: Loro, n: TreeID, f: Field)
    requires Typed(d, n) && (f == FX || f == FY || f == FW || f == FH || f == FR || f == FRotation)
    ensures RealAt(d, n, f).Some? <==> Get(d, n, FieldKey(f)).Some?
    ensures RealAt(d, n, f).Some? ==> Get(d, n, FieldKey(f)) == Some(VReal(RealAt(d, n, f).value))
  {
    hide Get;
    assert FieldTyped(f, Get(d, n, FieldKey(f)));
  }

  /** What registers make of kind `kind`: something exactly when none of the
      fields it needs is missing; and then what they say. */
  ghost predicate MadeOf(d: Loro, n: TreeID, kind: ObjectKind, o: Option<SlideObject>) {
    && (o.Some? <==> forall f :: Needs(kind, f) ==> Get(d, n, FieldKey(f)).Some?)
    && (o.Some? ==> KindOf(o.value) == kind)
    && (o.Some? ==> forall f :: Needs(kind, f) ==> FieldReg(o.value, f) == Get(d, n, FieldKey(f)))
    && (o.Some? && kind == AnImage && Get(d, n, FieldKey(FCrop)).Some? ==> FieldReg(o.value, FCrop) == Get(d, n, FieldKey(FCrop)))
  }

  lemma PlaceTyped(d: Loro, n: TreeID)
    requires Typed(d, n)
    ensures forall f :: f == FX || f == FY || f == FW || f == FH || f == FR || f == FRotation ==>
              (RealAt(d, n, f).Some? <==> Get(d, n, FieldKey(f)).Some?)
              && (RealAt(d, n, f).Some? ==> Get(d, n, FieldKey(f)) == Some(VReal(RealAt(d, n, f).value)))
  {
    hide Get, RealAt, Typed;
    forall f | f == FX || f == FY || f == FW || f == FH || f == FR || f == FRotation
      ensures RealAt(d, n, f).Some? <==> Get(d, n, FieldKey(f)).Some?
      ensures RealAt(d, n, f).Some? ==> Get(d, n, FieldKey(f)) == Some(VReal(RealAt(d, n, f).value))
    {
      RealTyped(d, n, f);
    }
  }

  lemma CircleMade(d: Loro, n: TreeID)
    requires Typed(d, n)
    ensures MadeOf(d, n, ACircle, ReadKind(d, n, ACircle))
  {
    hide Get, RealAt, ReadText, ReadContent, ContentReg, Typed;
    PlaceTyped(d, n);
    assert Needs(ACircle, FX) && Needs(ACircle, FY) && Needs(ACircle, FRotation) && Needs(ACircle, FR);
  }

  lemma TextNeeds(f: Field)
    ensures Needs(ATextBox, f) <==>
            f == FX || f == FY || f == FW || f == FH || f == FRotation || f == FText || f == FRuns || f == FBody
  {
  }

  lemma TextFields(o: SlideObject)
    requires o.TextBox?
    ensures FieldReg(o, FX) == Some(VReal(o.x)) && FieldReg(o, FY) == Some(VReal(o.y)) && FieldReg(o, FRotation) == Some(VReal(o.rotation))
    ensures FieldReg(o, FW) == Some(VReal(o.w)) && FieldReg(o, FH) == Some(VReal(o.h))
  {
  }

  lemma TextMade(d: Loro, n: TreeID)
    requires Typed(d, n)
    ensures MadeOf(d, n, ATextBox, ReadKind(d, n, ATextBox))
  {
    hide Get, RealAt, ReadText, ReadContent, ContentReg, Typed, Needs, KindOf, FieldReg;
    PlaceTyped(d, n);
    forall f
      ensures Needs(ATextBox, f) <==>
              f == FX || f == FY || f == FW || f == FH || f == FRotation || f == FText || f == FRuns || f == FBody
    {
      TextNeeds(f);
    }
    var x, y, rotation := RealAt(d, n, FX), RealAt(d, n, FY), RealAt(d, n, FRotation);
    var w, h := RealAt(d, n, FW), RealAt(d, n, FH);
    if x.Some? && y.Some? && rotation.Some? && w.Some? && h.Some? {
      TextMakes(d, n, x.value, y.value, w.value, h.value, rotation.value);
      var o := ReadKind(d, n, ATextBox);
      if o.Some? {
        TextFields(o.value);
      }
    }
  }

  lemma BoxNeeds(kind: ObjectKind, f: Field)
    requires kind != ATextBox && kind != ACircle
    ensures Needs(kind, f) <==> f == FX || f == FY || f == FW || f == FH || f == FRotation || (Inner(f) && Needs(kind, f))
  {
  }

  lemma BoxFields(what: Content, x: real, y: real, w: real, h: real, rotation: real)
    ensures var o := Boxed(what, x, y, w, h, rotation);
            && KindOf(o) == KindOf(Boxed(what, 0.0, 0.0, 0.0, 0.0, 0.0))
            && FieldReg(o, FX) == Some(VReal(x)) && FieldReg(o, FY) == Some(VReal(y)) && FieldReg(o, FRotation) == Some(VReal(rotation))
            && FieldReg(o, FW) == Some(VReal(w)) && FieldReg(o, FH) == Some(VReal(h))
            && forall f :: Inner(f) ==> FieldReg(o, f) == ContentReg(what, f)
  {
    hide ContentReg;
  }

  lemma BoxMade(d: Loro, n: TreeID, kind: ObjectKind)
    requires Typed(d, n) && kind != ATextBox && kind != ACircle
    ensures MadeOf(d, n, kind, ReadKind(d, n, kind))
  {
    hide Get, RealAt, ReadText, ReadContent, ContentReg, Typed, Needs, Inner, KindOf, FieldReg;
    PlaceTyped(d, n);
    ContentMakes(d, n, kind);
    forall f
      ensures Needs(kind, f) <==> f == FX || f == FY || f == FW || f == FH || f == FRotation || (Inner(f) && Needs(kind, f))
    {
      BoxNeeds(kind, f);
    }
    assert Inner(FCrop) by {
      CropInner();
    }
    var what := ReadContent(d, n, kind);
    var o := ReadKind(d, n, kind);
    if o.Some? {
      BoxFields(what.value, o.value.x, o.value.y, o.value.w, o.value.h, o.value.rotation);
    }
  }

  lemma CropInner()
    ensures Inner(FCrop)
  {
  }

  /** Registers make an object of their kind exactly when none of the fields it
      needs is missing; and it is the object they say. */
  lemma RegistersMake(d: Loro, n: TreeID, kind: ObjectKind)
    requires Typed(d, n) && Get(d, n, Kind) == Some(VKind(kind))
    ensures MadeOf(d, n, kind, ReadObject(d, n))
  {
    hide MadeOf, ReadKind, Typed;
    match kind
    case ATextBox => TextMade(d, n);
    case ACircle => CircleMade(d, n);
    case _ => BoxMade(d, n, kind);
  }

  /** An object is its kind and its fields. */
  lemma SameFields(a: SlideObject, b: SlideObject)
    requires KindOf(a) == KindOf(b) && forall f: Field :: FieldReg(a, f) == FieldReg(b, f)
    ensures a == b
  {
    hide ContentReg;
    assert FieldReg(a, FX) == FieldReg(b, FX) && FieldReg(a, FY) == FieldReg(b, FY) && FieldReg(a, FRotation) == FieldReg(b, FRotation);
    assert FieldReg(a, FW) == FieldReg(b, FW) && FieldReg(a, FH) == FieldReg(b, FH) && FieldReg(a, FR) == FieldReg(b, FR);
    assert FieldReg(a, FText) == FieldReg(b, FText) && FieldReg(a, FRuns) == FieldReg(b, FRuns) && FieldReg(a, FBody) == FieldReg(b, FBody);
    if a.Boxed? {
      forall f | Inner(f)
        ensures ContentReg(a.what, f) == ContentReg(b.what, f)
      {
        assert FieldReg(a, f) == FieldReg(b, f);
      }
      SameContent(a.what, b.what);
    }
  }

  lemma SameContent(a: Content, b: Content)
    requires KindOf(Boxed(a, 0.0, 0.0, 0.0, 0.0, 0.0)) == KindOf(Boxed(b, 0.0, 0.0, 0.0, 0.0, 0.0))
    requires forall f: Field :: Inner(f) ==> ContentReg(a, f) == ContentReg(b, f)
    ensures a == b
  {
    assert Inner(FKind) && Inner(FStyle) && Inner(FPath) && Inner(FCrop) && Inner(FTable) && Inner(FChart);
    assert ContentReg(a, FKind) == ContentReg(b, FKind) && ContentReg(a, FStyle) == ContentReg(b, FStyle);
    assert ContentReg(a, FPath) == ContentReg(b, FPath) && ContentReg(a, FCrop) == ContentReg(b, FCrop);
    assert ContentReg(a, FTable) == ContentReg(b, FTable) && ContentReg(a, FChart) == ContentReg(b, FChart);
  }

  /** Registers that hold an object's kind and fields make it. */
  lemma ObjectIs(e: Loro, n: TreeID, o: SlideObject)
    requires Get(e, n, Kind) == ObjectReg(o, Kind)
    requires forall f: Field :: Get(e, n, FieldKey(f)) == FieldReg(o, f)
    ensures ReadObject(e, n) == Some(o)
  {
    hide Get, FieldReg, ReadObject, FieldTyped, Owns, KindOf;
    forall f: Field
      ensures FieldTyped(f, Get(e, n, FieldKey(f)))
      ensures FieldReg(o, f).Some? <==> Owns(KindOf(o), f)
    {
      ObjectTyped(o, f);
    }
    RegistersMake(e, n, KindOf(o));
    var r := ReadObject(e, n).value;
    forall f: Field
      ensures FieldReg(r, f) == FieldReg(o, f)
    {
      ObjectTyped(r, f);
      CropOnly(KindOf(o), f);
    }
    SameFields(r, o);
  }

  lemma CropOnly(kind: ObjectKind, f: Field)
    ensures Owns(kind, f) && !Needs(kind, f) ==> f == FCrop && kind == AnImage
  {
  }

  /** The registers an object is written to give it back, whatever object the
      node held before. */
  lemma ObjectReadsBack(d: Loro, n: TreeID, o: SlideObject)
    ensures var e := WriteObject(d, n, o);
            OnlyRegsOf(d, e, n) && ReadObject(e, n) == Some(o)
  {
    hide ObjectKeys, ReadObject;
    ObjectKeyList(o, FX);
    PutKeysLaw(d, n, k => ObjectReg(o, k), ObjectKeys(o));
    var e := WriteObject(d, n, o);
    forall f: Field
      ensures Get(e, n, FieldKey(f)) == ObjectReg(o, FieldKey(f))
    {
      ObjectKeyList(o, f);
    }
    ObjectIs(e, n, o);
  }

  lemma SlideIs(e: Loro, nodes: Nodes, n: TreeID, s: Slide)
    requires forall k: Key :: !k.Kind? && !k.FieldKey? && !k.Deleted? ==> Get(e, n, k) == SlideReg(nodes, s, k)
    ensures ReadProps(e, n) == (s.props.(builds := []), s.hidden)
    ensures ReadBuilds(e, n) == Stored(nodes, s.props.builds)
  {
    hide Get, Stored;
    assert TextAt(e, n, TitleKey) == Some(s.props.title) && TextAt(e, n, Background) == Some(s.props.background);
    assert TextAt(e, n, Notes) == Some(s.props.notes) && IdAt(e, n, MasterId) == s.props.masterId;
    assert Get(e, n, Picture) == Some(VTextOpt(s.props.picture)) && IdAt(e, n, LayoutId) == s.props.layoutId;
    assert Get(e, n, TransitionKey) == Some(VTransition(s.props.transition)) && Get(e, n, Hidden) == Some(VBool(s.hidden));
  }

  /** So do a slide's: its properties, and its builds by their objects' nodes. */
  lemma SlideReadsBack(d: Loro, nodes: Nodes, n: TreeID, s: Slide)
    ensures var e := WriteSlide(d, nodes, n, s);
            && OnlyRegsOf(d, e, n)
            && ReadProps(e, n) == (s.props.(builds := []), s.hidden)
            && ReadBuilds(e, n) == Stored(nodes, s.props.builds)
  {
    SlideKeyList(s);
    PutKeysLaw(d, n, k => SlideReg(nodes, s, k), SlideKeys(s));
    SlideIs(WriteSlide(d, nodes, n, s), nodes, n, s);
  }
}
