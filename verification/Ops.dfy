/** Deck edits as ops, each applied with its exact inverse: what `apply`,
    `apply_doc` and the shared `apply_all` compute, as functions. */
module Ops {
  import opened Engine
  import opened Sequences

  datatype Op =
    | InsertSlide(at: nat, page: Slide)
    | DeleteSlide(slide: nat)
    | MoveSlide(slide: nat, to: nat)
    | SetSlide(slide: nat, props: SlideProps)
    | InsertObject(slide: nat, at: nat, id: nat, what: SlideObject)
    | DeleteObject(slide: nat, id: nat)
    | MoveObject(slide: nat, id: nat, to: nat)
    | SetObject(slide: nat, id: nat, what: SlideObject)
    | SetMaster(id: nat, master: Master)

  datatype OpError = OutOfRange | Duplicate | LastSlide

  datatype Doc = Doc(slides: seq<Slide>, masters: seq<Master>)

  /** The inverse ops, in the order to apply them, or why nothing was applied. */
  type Reply = Result<seq<Op>, OpError>

  /** The slides after an attempt, and its reply. */
  datatype Outcome = Outcome(slides: seq<Slide>, reply: Reply)

  datatype DocOutcome = DocOutcome(doc: Doc, reply: Reply)

  // ---------------------------------------------------------------- ids

  function MaxOf(ids: seq<nat>): (m: nat)
    ensures forall x :: x in ids ==> x <= m
    ensures m == 0 || m in ids
  {
    if ids == [] then 0
    else
      var rest := MaxOf(ids[1..]);
      assert forall x :: x in ids ==> x == ids[0] || x in ids[1..];
      if ids[0] > rest then ids[0] else rest
  }

  function SlideIdList(s: Slide): seq<nat> {
    [s.ids.slide] + s.ids.objects + s.ids.deleted
  }

  /** Every id a deck uses or has tombstoned, in order. */
  function IdList(slides: seq<Slide>): seq<nat> {
    if slides == [] then [] else SlideIdList(slides[0]) + IdList(slides[1..])
  }

  function MaxId(slides: seq<Slide>): nat {
    MaxOf(IdList(slides))
  }

  function NextId(slides: seq<Slide>): nat {
    MaxId(slides) + 1
  }

  /** `n` ids from `next` on. */
  function Fresh(next: nat, n: nat): (ids: seq<nat>)
    ensures |ids| == n
    ensures forall i :: 0 <= i < n ==> ids[i] == next + i
  {
    seq(n, i requires 0 <= i < n => next + i)
  }

  function KeptIds(s: Slide): seq<nat> {
    if |s.ids.objects| <= |s.objects| then s.ids.objects else s.ids.objects[..|s.objects|]
  }

  /** `s` with an id for itself and one per object, minted from `next` on; and the next id. */
  function AssignIds(s: Slide, next: nat): (Slide, nat) {
    var own := if s.ids.slide == 0 then next else s.ids.slide;
    var from := if s.ids.slide == 0 then next + 1 else next;
    var kept := KeptIds(s);
    var short := |s.objects| - |kept|;
    (s.(ids := SlideIds(own, kept + Fresh(from, short), s.ids.deleted)), from + short)
  }

  function EnsureFrom(slides: seq<Slide>, next: nat): seq<Slide> {
    if slides == [] then []
    else
      var (s, n) := AssignIds(slides[0], next);
      [s] + EnsureFrom(slides[1..], n)
  }

  function EnsureIds(slides: seq<Slide>): seq<Slide> {
    EnsureFrom(slides, NextId(slides))
  }

  /** The position of slide `id`. */
  function SlidePos(slides: seq<Slide>, id: nat): (r: Option<nat>)
    ensures r.Some? ==> r.value < |slides| && slides[r.value].ids.slide == id
    ensures r.Some? ==> forall j :: 0 <= j < r.value ==> slides[j].ids.slide != id
    ensures r.None? ==> forall j :: 0 <= j < |slides| ==> slides[j].ids.slide != id
  {
    if slides == [] then None
    else if slides[0].ids.slide == id then Some(0)
    else
      var rest := SlidePos(slides[1..], id);
      if rest.Some? then Some(rest.value + 1) else None
  }

  // ---------------------------------------------------------------- one op

  /** A slide's builds once object `id` is gone. */
  function WithoutObject(builds: seq<Build>, id: nat): (r: seq<Build>)
    ensures forall b :: b in r <==> b in builds && b.target != id
  {
    if builds == [] then []
    else (if builds[0].target != id then [builds[0]] else []) + WithoutObject(builds[1..], id)
  }

  predicate NamesObject(builds: seq<Build>, id: nat) {
    exists b :: b in builds && b.target == id
  }

  /** An op on one slide's properties or objects. */
  predicate OnOneSlide(op: Op) {
    op.SetSlide? || op.InsertObject? || op.DeleteObject? || op.MoveObject? || op.SetObject?
  }

  /** What an op does to the slide it names: the slide and the inverse. The
      object ids stand beside the objects, one each. */
  function Edit(s: Slide, op: Op): (Slide, Reply)
    requires OnOneSlide(op) && |s.ids.objects| == |s.objects|
  {
    match op
    case SetSlide(slide, props) =>
      (s.(props := props), Ok([SetSlide(slide, s.props)]))
    case InsertObject(slide, at, id, what) =>
      if at > |s.objects| then (s, Err(OutOfRange))
      else if id in s.ids.objects then (s, Err(Duplicate))
      else
        var ids := s.ids.(objects := Insert(s.ids.objects, at, id), deleted := Without(s.ids.deleted, id));
        (s.(objects := Insert(s.objects, at, what), ids := ids), Ok([DeleteObject(slide, id)]))
    case DeleteObject(slide, id) =>
      var at := IndexOf(s.ids.objects, id);
      if at.None? then (s, Ok([]))
      else
        var ids := s.ids.(objects := Remove(s.ids.objects, at.value), deleted := s.ids.deleted + [id]);
        var left := s.(objects := Remove(s.objects, at.value), ids := ids,
                       props := s.props.(builds := WithoutObject(s.props.builds, id)));
        var back := [InsertObject(slide, at.value, id, s.objects[at.value])];
        (left, Ok(back + if NamesObject(s.props.builds, id) then [SetSlide(slide, s.props)] else []))
    case MoveObject(slide, id, to) =>
      var from := IndexOf(s.ids.objects, id);
      if from.None? then (s, Ok([]))
      else if to >= |s.objects| then (s, Err(OutOfRange))
      else
        var ids := s.ids.(objects := Relocate(s.ids.objects, from.value, to));
        (s.(objects := Relocate(s.objects, from.value, to), ids := ids),
         Ok([MoveObject(slide, id, from.value)]))
    case SetObject(slide, id, what) =>
      var at := IndexOf(s.ids.objects, id);
      if at.None? then (s, Ok([]))
      else (s.(objects := s.objects[at.value := what]), Ok([SetObject(slide, id, s.objects[at.value])]))
  }

  function Without(ids: seq<nat>, id: nat): (r: seq<nat>)
    ensures forall x :: x in r <==> x in ids && x != id
  {
    if ids == [] then []
    else (if ids[0] != id then [ids[0]] else []) + Without(ids[1..], id)
  }

  /** Slide `s` taken out leaves its ids on a neighbour's tombstone list. */
  function Bury(slides: seq<Slide>, at: nat, s: Slide): seq<Slide>
    requires 0 < |slides| && at <= |slides|
  {
    var n := if at < |slides| then at else |slides| - 1;
    var ids := slides[n].ids;
    slides[n := slides[n].(ids := ids.(deleted := ids.deleted + SlideIdList(s)))]
  }

  /** `s` as it goes in: an unnumbered slide takes the next id. */
  function Numbered(slides: seq<Slide>, s: Slide): Slide {
    if s.ids.slide == 0 then s.(ids := s.ids.(slide := NextId(slides))) else s
  }

  function ApplyReady(slides: seq<Slide>, op: Op): (o: Outcome)
    requires Ready(slides)
    ensures o.reply.Ok? ==> Short(o.reply.value)
  {
    match op
    case SetMaster(_, _) => Outcome(slides, Ok([]))
    case InsertSlide(at, page) =>
      if at > |slides| then Outcome(slides, Err(OutOfRange))
      else if page.ids.slide != 0 && SlidePos(slides, page.ids.slide).Some? then Outcome(slides, Err(Duplicate))
      else
        var s := Numbered(slides, page);
        Outcome(EnsureIds(Insert(slides, at, s)), Ok([DeleteSlide(s.ids.slide)]))
    case DeleteSlide(slide) =>
      var i := SlidePos(slides, slide);
      if i.None? then Outcome(slides, Ok([]))
      else if |slides| == 1 then Outcome(slides, Err(LastSlide))
      else Outcome(Bury(Remove(slides, i.value), i.value, slides[i.value]), Ok([InsertSlide(i.value, slides[i.value])]))
    case MoveSlide(slide, to) =>
      var i := SlidePos(slides, slide);
      if i.None? then Outcome(slides, Ok([]))
      else if to >= |slides| then Outcome(slides, Err(OutOfRange))
      else Outcome(Relocate(slides, i.value, to), Ok([MoveSlide(slide, i.value)]))
    case _ =>
      var i := SlidePos(slides, op.slide);
      if i.None? then Outcome(slides, Ok([]))
      else
        var (s, reply) := Edit(slides[i.value], op);
        Outcome(slides[i.value := s], reply)
  }

  predicate ReadySlide(s: Slide) {
    s.ids.slide != 0 && |s.ids.objects| == |s.objects|
  }

  /** Every slide and object has its id. */
  predicate Ready(slides: seq<Slide>) {
    forall i :: 0 <= i < |slides| ==> ReadySlide(slides[i])
  }

  lemma {:induction false} EnsureFromReady(slides: seq<Slide>, next: nat)
    requires next > 0
    ensures Ready(EnsureFrom(slides, next)) && |EnsureFrom(slides, next)| == |slides|
  {
    if slides != [] {
      EnsureFromReady(slides[1..], AssignIds(slides[0], next).1);
    }
  }

  /** `apply`: number the deck, then do the op. */
  function Apply(slides: seq<Slide>, op: Op): (o: Outcome)
    ensures o.reply.Ok? ==> Short(o.reply.value)
  {
    EnsureFromReady(slides, NextId(slides));
    ApplyReady(EnsureIds(slides), op)
  }

  function MasterPos(masters: seq<Master>, id: nat): (r: Option<nat>)
    ensures r.Some? ==> r.value < |masters| && masters[r.value].id == id
    ensures r.Some? ==> forall j :: 0 <= j < r.value ==> masters[j].id != id
    ensures r.None? ==> forall j :: 0 <= j < |masters| ==> masters[j].id != id
  {
    if masters == [] then None
    else if masters[0].id == id then Some(0)
    else
      var rest := MasterPos(masters[1..], id);
      if rest.Some? then Some(rest.value + 1) else None
  }

  /** `apply_doc`: a master op to the masters, the rest to the slides. */
  function ApplyDoc(doc: Doc, op: Op): (o: DocOutcome)
    ensures o.reply.Ok? ==> Short(o.reply.value)
  {
    if op.SetMaster? then
      var i := MasterPos(doc.masters, op.id);
      if i.None? then DocOutcome(doc, Err(OutOfRange))
      else
        var masters := doc.masters[i.value := op.master.(id := op.id)];
        DocOutcome(doc.(masters := masters), Ok([SetMaster(op.id, doc.masters[i.value])]))
    else
      var o := Apply(doc.slides, op);
      DocOutcome(doc.(slides := o.slides), o.reply)
  }

  // ---------------------------------------------------------------- groups

  /** One op, or an op followed by a `SetSlide`: the shapes inverses have. */
  predicate Short(ops: seq<Op>) {
    |ops| <= 1 || (|ops| == 2 && ops[1].SetSlide?)
  }

  /** `apply_all`: in order, all or nothing. On a failure the inverses of
      what was applied are applied, last first. */
  function ApplyAll(doc: Doc, ops: seq<Op>): (o: DocOutcome)
    ensures ops == [] || (|ops| == 1 && ops[0].SetSlide?) ==> o.reply.Ok?
    decreases !Short(ops), |ops|
  {
    if ops == [] then DocOutcome(doc, Ok([]))
    else
      var first := ApplyDoc(doc, ops[0]);
      match first.reply
      case Err(_) => first
      case Ok(inverse) =>
        var rest := ApplyAll(first.doc, ops[1..]);
        match rest.reply
        case Ok(more) => DocOutcome(rest.doc, Ok(more + inverse))
        case Err(e) => DocOutcome(ApplyAll(rest.doc, inverse).doc, Err(e))
  }
}
