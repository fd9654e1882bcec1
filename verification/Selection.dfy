/** What the window shows as current, by stable ids, and its repair against
    the slides now present. */
module Selecting {
  import opened Engine
  import opened Sequences
  import opened Ops
  import opened Numbering
  import opened OpLaws
  import opened Inverses

  datatype Mode = ObjectMode | TextMode | TableCellMode | GroupScope

  /** Byte offsets into one box's text. */
  datatype TextRange = TextRange(target: nat, start: nat, end: nat)

  datatype Selection = Selection(slide: Option<nat>, objects: seq<nat>, primary: Option<nat>, mode: Mode, range: Option<TextRange>)

  const NOTHING := Selection(None, [], None, ObjectMode, None)

  function Single(slide: nat): Selection {
    Selection(Some(slide), [], None, ObjectMode, None)
  }

  /** How many bytes a character takes in UTF-8. */
  function Width(c: char): nat {
    if c as int < 0x80 then 1 else if c as int < 0x800 then 2 else if c as int < 0x1_0000 then 3 else 4
  }

  /** Whether byte `n` lies between two characters of `text`, or at an end. */
  predicate CharBoundary(text: string, n: nat) {
    n == 0 || (text != [] && n >= Width(text[0]) && CharBoundary(text[1..], n - Width(text[0])))
  }

  /** The bytes of a character in UTF-8 (RFC 3629, section 3). */
  function Bytes(c: char): (b: seq<nat>)
    ensures |b| > 0
  {
    var n := c as int;
    if n < 0x80 then [n]
    else if n < 0x800 then [0xC0 + n / 0x40, 0x80 + n % 0x40]
    else if n < 0x1_0000 then [0xE0 + n / 0x1000, 0x80 + n / 0x40 % 0x40, 0x80 + n % 0x40]
    else [0xF0 + n / 0x4_0000, 0x80 + n / 0x1000 % 0x40, 0x80 + n / 0x40 % 0x40, 0x80 + n % 0x40]
  }

  function AllBytes(text: string): seq<nat> {
    if text == "" then [] else Bytes(text[0]) + AllBytes(text[1..])
  }

  /** A byte that goes on with a character rather than begin one. */
  predicate Continues(b: nat) {
    0x80 <= b < 0xC0
  }

  lemma CharBytes(c: char)
    ensures |Bytes(c)| == Width(c)
    ensures forall k :: 0 <= k < |Bytes(c)| ==> (Continues(Bytes(c)[k]) <==> k > 0)
  {
  }

  /** An offset is between characters exactly when it is the end of the bytes, or
      the byte there begins a character. */
  lemma {:induction false} BoundaryIs(text: string, n: nat)
    ensures CharBoundary(text, n) <==> Between(text, n)
    decreases |text|
  {
    if text != "" {
      var first, rest := Bytes(text[0]), AllBytes(text[1..]);
      CharBytes(text[0]);
      if n >= |first| {
        BoundaryIs(text[1..], n - |first|);
      } else {
        assert AllBytes(text)[n] == first[n];
      }
    }
  }

  predicate RangeFits(s: Slide, r: TextRange)
    requires |s.ids.objects| == |s.objects|
  {
    var at := IndexOf(s.ids.objects, r.target);
    at.Some? && s.objects[at.value].TextBox? && r.start <= r.end
    && CharBoundary(s.objects[at.value].text, r.start) && CharBoundary(s.objects[at.value].text, r.end)
  }

  /** A byte offset between two characters of the text, or at an end of it. */
  ghost predicate Between(text: string, n: nat) {
    var bytes := AllBytes(text);
    n == |bytes| || (n < |bytes| && !Continues(bytes[n]))
  }

  /** A range fits a slide exactly when its object is a text box there and its
      offsets, in order, lie between characters of that box's text. */
  lemma RangeFitsExactly(s: Slide, r: TextRange)
    requires |s.ids.objects| == |s.objects| && NoDup(s.ids.objects)
    ensures RangeFits(s, r) <==>
            exists k :: 0 <= k < |s.objects| && s.ids.objects[k] == r.target && s.objects[k].TextBox?
              && r.start <= r.end && Between(s.objects[k].text, r.start) && Between(s.objects[k].text, r.end)
  {
    hide CharBoundary, AllBytes;
    forall k | 0 <= k < |s.objects| && s.ids.objects[k] == r.target && s.objects[k].TextBox?
      ensures IndexOf(s.ids.objects, r.target) == Some(k)
      ensures CharBoundary(s.objects[k].text, r.start) == Between(s.objects[k].text, r.start)
      ensures CharBoundary(s.objects[k].text, r.end) == Between(s.objects[k].text, r.end)
    {
      BoundaryIs(s.objects[k].text, r.start);
      BoundaryIs(s.objects[k].text, r.end);
    }
  }

  /** The ids of `ids` that `live` has, in their order. */
  function StillThere(ids: seq<nat>, live: seq<nat>): (r: seq<nat>)
    ensures forall x :: x in r <==> x in ids && x in live
  {
    if ids == [] then [] else (if ids[0] in live then [ids[0]] else []) + StillThere(ids[1..], live)
  }

  function FirstOf(ids: seq<nat>): Option<nat> {
    if ids == [] then None else Some(ids[0])
  }

  function OnSlide(s: Slide, sel: Selection): Selection
    requires |s.ids.objects| == |s.objects|
  {
    var objects := StillThere(sel.objects, s.ids.objects);
    var primary := if sel.primary.Some? && sel.primary.value in objects then sel.primary else FirstOf(objects);
    var mode := if objects == [] then ObjectMode else sel.mode;
    if mode == TextMode && sel.range.Some? && sel.range.value.target in objects then
      if RangeFits(s, sel.range.value) then Selection(Some(s.ids.slide), objects, primary, mode, sel.range)
      else Selection(Some(s.ids.slide), objects, primary, ObjectMode, None)
    else
      Selection(Some(s.ids.slide), objects, primary, mode, None)
  }

  /** The slide a selection falls on: its own, or the first. */
  function SlideOf(slides: seq<Slide>, sel: Selection): Option<nat> {
    var own := if sel.slide.Some? then SlidePos(slides, sel.slide.value) else None;
    if own.Some? then own else if slides != [] then Some(0) else None
  }

  /** `sel` repaired: a gone slide falls back to the first, gone objects are
      pruned, and a text range that no longer fits is dropped. */
  function Repaired(slides: seq<Slide>, sel: Selection): Selection
    requires Ready(slides)
  {
    var at := SlideOf(slides, sel);
    if at.None? then NOTHING else OnSlide(slides[at.value], sel)
  }

  lemma {:induction false} KeptAll(ids: seq<nat>, live: seq<nat>)
    requires forall x :: x in ids ==> x in live
    ensures StillThere(ids, live) == ids
  {
    if ids != [] {
      assert ids[0] in ids;
      assert forall x :: x in ids[1..] ==> x in ids;
      KeptAll(ids[1..], live);
    }
  }

  lemma OnSlideTwice(s: Slide, sel: Selection)
    requires |s.ids.objects| == |s.objects|
    ensures OnSlide(s, OnSlide(s, sel)) == OnSlide(s, sel)
  {
    KeptAll(OnSlide(s, sel).objects, s.ids.objects);
  }

  /** Repair is idempotent. */
  lemma RepairedIdempotent(slides: seq<Slide>, sel: Selection)
    requires Ready(slides) && NoDup(SlideIdsOf(slides))
    ensures Repaired(slides, Repaired(slides, sel)) == Repaired(slides, sel)
  {
    var at := SlideOf(slides, sel);
    if at.Some? {
      PosIs(slides, at.value);
      OnSlideTwice(slides[at.value], sel);
    }
  }

  /** `r`: the ids at some rising positions of `ids`. */
  ghost predicate PicksAt(ids: seq<nat>, r: seq<nat>, at: seq<nat>) {
    && |at| == |r|
    && (forall k :: 0 <= k < |at| ==> at[k] < |ids| && r[k] == ids[at[k]])
    && (forall k, l :: 0 <= k < l < |at| ==> at[k] < at[l])
  }

  /** All of `ids` that `live` has, as often and in the same order. */
  ghost predicate KeepsLive(ids: seq<nat>, live: seq<nat>, r: seq<nat>) {
    && (exists at :: PicksAt(ids, r, at))
    && (forall x :: Times(r, x) == if x in live then Times(ids, x) else 0)
  }

  ghost function Times(ids: seq<nat>, x: nat): nat {
    multiset(ids)[x]
  }

  lemma {:induction false} StillThereInOrder(ids: seq<nat>, live: seq<nat>)
    ensures KeepsLive(ids, live, StillThere(ids, live))
  {
    var r := StillThere(ids, live);
    if ids == [] {
      var at: seq<nat> := [];
      assert PicksAt(ids, r, at);
    } else {
      StillThereInOrder(ids[1..], live);
      PicksMore(ids, StillThere(ids[1..], live), r);
      TimesMore(ids, live, StillThere(ids[1..], live), r);
    }
  }

  lemma PicksMore(ids: seq<nat>, rest: seq<nat>, r: seq<nat>)
    requires ids != [] && (exists at :: PicksAt(ids[1..], rest, at)) && (r == rest || r == [ids[0]] + rest)
    ensures exists at :: PicksAt(ids, r, at)
  {
    var at :| PicksAt(ids[1..], rest, at);
    var later := seq(|at|, k requires 0 <= k < |at| => at[k] + 1);
    if |r| == |rest| {
      assert PicksAt(ids, r, later);
    } else {
      assert PicksAt(ids, r, [0] + later);
    }
  }

  lemma TimesMore(ids: seq<nat>, live: seq<nat>, rest: seq<nat>, r: seq<nat>)
    requires ids != [] && (forall x :: Times(rest, x) == if x in live then Times(ids[1..], x) else 0)
    requires r == (if ids[0] in live then [ids[0]] else []) + rest
    ensures forall x :: Times(r, x) == if x in live then Times(ids, x) else 0
  {
    assert ids == [ids[0]] + ids[1..];
  }

  /** What repair keeps of `sel` on slide `s`: of its objects, in order, those
      still there; its primary, or the first kept; its mode while anything is
      kept; and its text range exactly while that fits a box it keeps. */
  ghost predicate KeptOn(s: Slide, sel: Selection, r: Selection)
    requires |s.ids.objects| == |s.objects|
  {
    && KeepsLive(sel.objects, s.ids.objects, r.objects)
    && r.primary == (if sel.primary.Some? && sel.primary.value in r.objects then sel.primary
                     else if r.objects == [] then None else Some(r.objects[0]))
    && var ranged := sel.mode == TextMode && sel.range.Some? && sel.range.value.target in r.objects;
       && r.range == (if ranged && RangeFits(s, sel.range.value) then sel.range else None)
       && r.mode == (if r.objects == [] || (ranged && r.range.None?) then ObjectMode else sel.mode)
  }

  lemma OnSlideKeeps(s: Slide, sel: Selection)
    requires |s.ids.objects| == |s.objects|
    ensures OnSlide(s, sel).slide == Some(s.ids.slide) && KeptOn(s, sel, OnSlide(s, sel))
  {
    hide KeepsLive, RangeFits, StillThere;
    StillThereInOrder(sel.objects, s.ids.objects);
    var r := OnSlide(s, sel);
    assert r.objects == StillThere(sel.objects, s.ids.objects);
    assert r.objects == [] ==> forall x :: x !in r.objects;
  }

  /** What repair promises: it falls on the selection's own slide, or on the
      first if that is gone, and keeps what is still there. */
  lemma RepairedNamesLive(slides: seq<Slide>, sel: Selection)
    requires Valid(slides)
    ensures exists i: nat :: i < |slides| && FallsOn(slides, sel, i) && Repaired(slides, sel).slide == Some(slides[i].ids.slide)
              && KeptOn(slides[i], sel, Repaired(slides, sel))
  {
    hide KeptOn, OnSlide;
    var i := SlideOf(slides, sel).value;
    PosIs(slides, i);
    OnSlideKeeps(slides[i], sel);
    assert FallsOn(slides, sel, i);
  }

  /** The `i`-th slide is the selection's own; it is the first if the deck does
      not have that. */
  ghost predicate FallsOn(slides: seq<Slide>, sel: Selection, i: nat)
    requires i < |slides|
  {
    || sel.slide == Some(slides[i].ids.slide)
    || (i == 0 && forall j :: 0 <= j < |slides| ==> sel.slide != Some(slides[j].ids.slide))
  }

  /** Repair does not look at tombstones. */
  lemma RepairedErased(a: seq<Slide>, b: seq<Slide>, sel: Selection)
    requires Ready(a) && Ready(b) && Erase(a) == Erase(b)
    ensures Repaired(a, sel) == Repaired(b, sel)
  {
    SameErased(a, b);
    SlideOfErased(a, b, sel);
    var at := SlideOf(a, sel);
    if at.Some? {
      OnSlideErased(a[at.value], b[at.value], sel);
    }
  }

  lemma SlideOfErased(a: seq<Slide>, b: seq<Slide>, sel: Selection)
    requires Erase(a) == Erase(b)
    ensures SlideOf(a, sel) == SlideOf(b, sel) && |a| == |b|
  {
    assert |Erase(a)| == |a| && |Erase(b)| == |b|;
    if sel.slide.Some? {
      ErasedPos(a, sel.slide.value);
      ErasedPos(b, sel.slide.value);
    }
  }

  lemma OnSlideErased(s: Slide, t: Slide, sel: Selection)
    requires ReadySlide(s) && ReadySlide(t) && EraseSlide(s) == EraseSlide(t)
    ensures OnSlide(s, sel) == OnSlide(t, sel)
  {
    assert s.objects == t.objects && s.ids.objects == t.ids.objects && s.ids.slide == t.ids.slide;
  }
}
