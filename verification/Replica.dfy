/** One peer's copy of a shared deck: ops written into the tree document, and
    the deck the document holds read back. */
module Replicas {
  import opened Engine
  import opened Sequences
  import opened Ops
  import opened Numbering
  import opened Tree

  // ---------------------------------------------------------------- objects as registers

  /** What a picture's crop is taken to be where none is given. */
  const NO_CROP := ""

  function KindOf(o: SlideObject): ObjectKind {
    match o
    case TextBox(_, _, _, _, _, _, _, _) => ATextBox
    case Circle(_, _, _, _) => ACircle
    case Boxed(Rect, _, _, _, _, _) => ARect
    case Boxed(Preset(_, _), _, _, _, _, _) => APreset
    case Boxed(Image(_, _), _, _, _, _, _) => AnImage
    case Boxed(Table(_), _, _, _, _, _) => ATable
    case Boxed(Chart(_), _, _, _, _, _) => AChart
  }

  /** The fields an object of a kind has. */
  predicate Owns(kind: ObjectKind, f: Field) {
    match f
    case FX => true
    case FY => true
    case FRotation => true
    case FR => kind == ACircle
    case FW => kind != ACircle
    case FH => kind != ACircle
    case FText => kind == ATextBox
    case FRuns => kind == ATextBox
    case FBody => kind == ATextBox
    case FKind => kind == APreset
    case FStyle => kind == APreset
    case FPath => kind == AnImage
    case FCrop => kind == AnImage
    case FTable => kind == ATable
    case FChart => kind == AChart
  }

  function ContentReg(what: Content, f: Field): Option<Value> {
    match (what, f)
    case (Preset(shape, _), FKind) => Some(VText(shape))
    case (Preset(_, style), FStyle) => Some(VText(style))
    case (Image(path, _), FPath) => Some(VText(path))
    case (Image(_, crop), FCrop) => Some(VText(crop))
    case (Table(table), FTable) => Some(VText(table))
    case (Chart(chart), FChart) => Some(VText(chart))
    case _ => None
  }

  function FieldReg(o: SlideObject, f: Field): Option<Value> {
    match f
    case FX => Some(VReal(o.x))
    case FY => Some(VReal(o.y))
    case FRotation => Some(VReal(o.rotation))
    case FR => if o.Circle? then Some(VReal(o.r)) else None
    case FW => if o.Circle? then None else Some(VReal(o.w))
    case FH => if o.Circle? then None else Some(VReal(o.h))
    case FText => if o.TextBox? then Some(VText(o.text)) else None
    case FRuns => if o.TextBox? then Some(VRuns(o.runs)) else None
    case FBody => if o.TextBox? then Some(VBody(o.body)) else None
    case _ => if o.Boxed? then ContentReg(o.what, f) else None
  }

  /** The register of an object's node under `k`, if it is to have one: its
      kind, or a field of that kind. */
  function ObjectReg(o: SlideObject, k: Key): Option<Value> {
    match k
    case Kind => Some(VKind(KindOf(o)))
    case FieldKey(f) => FieldReg(o, f)
    case _ => None
  }

  const FIELDS: seq<Field> := [FBody, FChart, FCrop, FH, FKind, FPath, FR, FRotation, FRuns, FStyle, FTable, FText, FW, FX, FY]

  /** Of these fields those the kind has, or those it has not. */
  function FieldKeys(kind: ObjectKind, owned: bool, fields: seq<Field>): seq<Key> {
    if fields == [] then []
    else (if Owns(kind, fields[0]) == owned then [FieldKey(fields[0])] else []) + FieldKeys(kind, owned, fields[1..])
  }

  /** The keys to write `o` under, in that order: its kind; the fields of other
      kinds, to be removed; and its own, by name. */
  function ObjectKeys(o: SlideObject): seq<Key> {
    [Kind] + (FieldKeys(KindOf(o), false, FIELDS) + FieldKeys(KindOf(o), true, FIELDS))
  }

  /** Write the registers of `list`: those with a value are set, the others removed. */
  function PutKeys(d: Loro, n: TreeID, values: Key -> Option<Value>, list: seq<Key>): Loro
    decreases |list|
  {
    if list == [] then d else PutKeys(Put(d, n, list[0], values(list[0])), n, values, list[1..])
  }

  function WriteObject(d: Loro, n: TreeID, o: SlideObject): Loro {
    PutKeys(d, n, k => ObjectReg(o, k), ObjectKeys(o))
  }

  function RealAt(d: Loro, n: TreeID, f: Field): Option<real> {
    match Get(d, n, FieldKey(f))
    case Some(VReal(r)) => Some(r)
    case _ => None
  }

  function TextAt(d: Loro, n: TreeID, k: Key): Option<string> {
    match Get(d, n, k)
    case Some(VText(s)) => Some(s)
    case _ => None
  }

  function FieldText(d: Loro, n: TreeID, f: Field): Option<string> {
    TextAt(d, n, FieldKey(f))
  }

  function ReadContent(d: Loro, n: TreeID, kind: ObjectKind): Option<Content> {
    match kind
    case ARect => Some(Rect)
    case APreset =>
      var shape, style := FieldText(d, n, FKind), FieldText(d, n, FStyle);
      if shape.Some? && style.Some? then Some(Preset(shape.value, style.value)) else None
    case AnImage =>
      var path, crop := FieldText(d, n, FPath), FieldText(d, n, FCrop);
      if path.Some? then Some(Image(path.value, if crop.Some? then crop.value else NO_CROP)) else None
    case ATable => if FieldText(d, n, FTable).Some? then Some(Table(FieldText(d, n, FTable).value)) else None
    case AChart => if FieldText(d, n, FChart).Some? then Some(Chart(FieldText(d, n, FChart).value)) else None
    case _ => None
  }

  function ReadText(d: Loro, n: TreeID, x: real, y: real, w: real, h: real, rotation: real): Option<SlideObject> {
    match (Get(d, n, FieldKey(FText)), Get(d, n, FieldKey(FRuns)), Get(d, n, FieldKey(FBody)))
    case (Some(VText(text)), Some(VRuns(runs)), Some(VBody(body))) => Some(TextBox(text, x, y, w, h, rotation, runs, body))
    case _ => None
  }

  function ReadKind(d: Loro, n: TreeID, kind: ObjectKind): Option<SlideObject> {
    var x, y, rotation := RealAt(d, n, FX), RealAt(d, n, FY), RealAt(d, n, FRotation);
    var w, h, r := RealAt(d, n, FW), RealAt(d, n, FH), RealAt(d, n, FR);
    if x.None? || y.None? || rotation.None? then None
    else if kind == ACircle then
      (if r.Some? then Some(Circle(x.value, y.value, r.value, rotation.value)) else None)
    else if w.None? || h.None? then None
    else if kind == ATextBox then ReadText(d, n, x.value, y.value, w.value, h.value, rotation.value)
    else
      var what := ReadContent(d, n, kind);
      if what.Some? then Some(Boxed(what.value, x.value, y.value, w.value, h.value, rotation.value)) else None
  }

  /** The object a node's registers make, if they make one. */
  function ReadObject(d: Loro, n: TreeID): Option<SlideObject> {
    match Get(d, n, Kind)
    case Some(VKind(kind)) => ReadKind(d, n, kind)
    case _ => None
  }

  // ---------------------------------------------------------------- slides as registers

  type Nodes = map<nat, TreeID>

  /** The builds whose objects have nodes, by those nodes. */
  function Stored(nodes: Nodes, builds: seq<Build>): seq<StoredBuild> {
    if builds == [] then []
    else
      var rest := Stored(nodes, builds[1..]);
      if builds[0].target in nodes then [StoredBuild(nodes[builds[0].target], builds[0].effect, builds[0].out)] + rest else rest
  }

  function SlideReg(nodes: Nodes, s: Slide, k: Key): Option<Value> {
    match k
    case TitleKey => Some(VText(s.props.title))
    case Background => Some(VText(s.props.background))
    case Picture => Some(VTextOpt(s.props.picture))
    case Notes => Some(VText(s.props.notes))
    case MasterId => Some(VId(s.props.masterId))
    case TransitionKey => Some(VTransition(s.props.transition))
    case LayoutId => Some(VId(s.props.layoutId))
    case Hidden => Some(VBool(s.hidden))
    case Builds => Some(VBuilds(Stored(nodes, s.props.builds)))
    case _ => None
  }

  /** The keys of slide `s`, builds last. */
  function SlideKeys(s: Slide): seq<Key> {
    [TitleKey, Background, Picture, Notes, MasterId, TransitionKey, LayoutId, Hidden, Builds]
  }

  function WriteSlide(d: Loro, nodes: Nodes, n: TreeID, s: Slide): Loro {
    PutKeys(d, n, k => SlideReg(nodes, s, k), SlideKeys(s))
  }

  function IdAt(d: Loro, n: TreeID, k: Key): Option<nat> {
    match Get(d, n, k)
    case Some(VId(id)) => id
    case _ => None
  }

  /** The properties a slide's registers hold, builds aside; and whether it is hidden. */
  function ReadProps(d: Loro, n: TreeID): (SlideProps, bool) {
    var title := TextAt(d, n, TitleKey);
    var background := TextAt(d, n, Background);
    var notes := TextAt(d, n, Notes);
    var picture := match Get(d, n, Picture) case Some(VTextOpt(p)) => p case _ => None;
    var transition := match Get(d, n, TransitionKey) case Some(VTransition(t)) => t case _ => NoTransition;
    var hidden := match Get(d, n, Hidden) case Some(VBool(b)) => b case _ => false;
    (SlideProps(
       if title.Some? then title.value else "",
       if background.Some? then background.value else "",
       picture,
       if notes.Some? then notes.value else "",
       IdAt(d, n, MasterId), transition, [], IdAt(d, n, LayoutId)),
     hidden)
  }

  function ReadBuilds(d: Loro, n: TreeID): seq<StoredBuild> {
    match Get(d, n, Builds)
    case Some(VBuilds(builds)) => builds
    case _ => []
  }

  // ---------------------------------------------------------------- places

  /** The nodes either side of position `at`. */
  function Neighbours(nodes: Nodes, ids: seq<nat>, at: nat): (Option<TreeID>, Option<TreeID>) {
    (if 0 < at <= |ids| && ids[at - 1] in nodes then Some(nodes[ids[at - 1]]) else None,
     if at + 1 < |ids| && ids[at + 1] in nodes then Some(nodes[ids[at + 1]]) else None)
  }

  /** A new node under `p`, between `prev` and `next`. */
  function Create(d: Loro, p: TreeID, prev: Option<TreeID>, next: Option<TreeID>): (Loro, TreeID)
    requires p in d.kids
  {
    var kids := d.kids[p];
    var index :=
      if prev.Some? then (var at := Position(kids, prev.value); if at.Some? then at.value + 1 else |kids|)
      else if next.Some? then (var at := Position(kids, next.value); if at.Some? then at.value else 0)
      else |kids|;
    CreateAt(d, p, index)
  }

  predicate InTree(d: Loro, n: TreeID) {
    n in d.parent && d.parent[n] in d.kids
  }

  predicate InTreeOpt(d: Loro, n: Option<TreeID>) {
    n.Some? ==> InTree(d, n.value)
  }

  /** `n` moved under `p`, between `prev` and `next`; only it moves. (A node
      that is not in the tree is not there to move.) */
  function Place(d: Loro, n: TreeID, p: TreeID, prev: Option<TreeID>, next: Option<TreeID>): Loro {
    if !InTree(d, n) || p !in d.kids || !InTreeOpt(d, prev) || !InTreeOpt(d, next) then d
    else if prev.Some? then MovAfter(d, n, prev.value)
    else if next.Some? then MovBefore(d, n, next.value)
    else if d.parent[n] != p then Mov(d, n, p)
    else d
  }

  /** From the `j`-th on, each node of `order` moved right after the one before it. */
  function OrderFrom(d: Loro, p: TreeID, order: seq<TreeID>, j: nat): Loro
    requires 0 < j <= |order|
    decreases |order| - j
  {
    if j == |order| then d
    else OrderFrom(Place(d, order[j], p, Some(order[j - 1]), None), p, order, j + 1)
  }

  /** `order`'s nodes in that order under `p`; those in order already stay put. */
  function Order(d: Loro, p: TreeID, order: seq<TreeID>): Loro {
    var now := Pick(Children(d, p), set n | n in order);
    if now == order || order == [] then d
    else
      var next := if now != [] && now[0] != order[0] then Some(now[0]) else None;
      OrderFrom(Place(d, order[0], p, None, next), p, order, 1)
  }

  // ---------------------------------------------------------------- one op

  /** The document, the deck this peer last wrote or read, and each local
      id's node. */
  datatype Rep = Rep(doc: Loro, deck: seq<Slide>, nodes: Nodes)

  /** A node for `id` under `p` between `prev` and `next`: its own again, back
      from its tombstone, or a new one. */
  function Housed(r: Rep, id: nat, known: bool, p: TreeID, prev: Option<TreeID>, next: Option<TreeID>): (Rep, TreeID) {
    if known && id in r.nodes then
      var n := r.nodes[id];
      (r.(doc := Place(SetDeleted(r.doc, n, false), n, p, prev, next)), n)
    else if p in r.doc.kids then
      var (d, n) := Create(r.doc, p, prev, next);
      (r.(doc := d, nodes := r.nodes[id := n]), n)
    else (r, p)
  }

  /** The objects of a slide put in: each its own node again, or a new one at
      the end; and their nodes in order. */
  function HouseObjects(r: Rep, p: TreeID, objects: seq<SlideObject>, ids: seq<nat>): (Rep, seq<TreeID>)
    decreases |objects|
  {
    if objects == [] || ids == [] then (r, [])
    else
      var known := ids[0] in r.nodes;
      var (q, n) :=
        if known then (r.(doc := SetDeleted(r.doc, r.nodes[ids[0]], false)), r.nodes[ids[0]])
        else Housed(r, ids[0], false, p, None, None);
      var (t, rest) := HouseObjects(q.(doc := WriteObject(q.doc, n, objects[0])), p, objects[1..], ids[1..]);
      (t, [n] + rest)
  }

  /** Write `op`, just applied to the replica's deck, into the tree. */
  function Write(r: Rep, op: Op): Rep {
    match op
    case InsertSlide(at, page) =>
      if at >= |r.deck| then r
      else
        var s := r.deck[at];
        var (prev, next) := Neighbours(r.nodes, SlideIdsOf(r.deck), at);
        var (q, n) := Housed(r, s.ids.slide, page.ids.slide != 0, ROOT, prev, next);
        var (t, order) := HouseObjects(q, n, s.objects, s.ids.objects);
        t.(doc := WriteSlide(Order(t.doc, n, order), t.nodes, n, s))
    case DeleteSlide(slide) =>
      if slide in r.nodes then r.(doc := SetDeleted(r.doc, r.nodes[slide], true)) else r
    case DeleteObject(_, id) =>
      if id in r.nodes then r.(doc := SetDeleted(r.doc, r.nodes[id], true)) else r
    case MoveSlide(slide, to) =>
      var (prev, next) := Neighbours(r.nodes, SlideIdsOf(r.deck), to);
      if slide in r.nodes then r.(doc := Place(r.doc, r.nodes[slide], ROOT, prev, next)) else r
    case SetMaster(_, _) => r
    case _ =>
      var i := SlidePos(r.deck, op.slide);
      if i.None? || op.slide !in r.nodes then r else WriteOnSlide(r, op, r.deck[i.value], r.nodes[op.slide])
  }

  function WriteOnSlide(r: Rep, op: Op, s: Slide, p: TreeID): Rep
    requires op.SetSlide? || op.InsertObject? || op.MoveObject? || op.SetObject?
  {
    match op
    case SetSlide(_, _) => r.(doc := WriteSlide(r.doc, r.nodes, p, s))
    case InsertObject(_, at, id, _) =>
      var (prev, next) := Neighbours(r.nodes, s.ids.objects, at);
      var (q, n) := Housed(r, id, true, p, prev, next);
      if at < |s.objects| then q.(doc := WriteObject(q.doc, n, s.objects[at])) else q
    case MoveObject(_, id, to) =>
      var (prev, next) := Neighbours(r.nodes, s.ids.objects, to);
      if id in r.nodes then r.(doc := Place(r.doc, r.nodes[id], p, prev, next)) else r
    case SetObject(_, id, _) =>
      var at := IndexOf(s.ids.objects, id);
      if id in r.nodes && at.Some? && at.value < |s.objects| then
        r.(doc := WriteObject(r.doc, r.nodes[id], s.objects[at.value]))
      else r
  }

  /** Apply `op` to the replica's deck, and write it if it did anything. */
  function RecordOp(r: Rep, op: Op): (Rep, bool) {
    var o := Apply(r.deck, op);
    var q := r.(deck := o.slides);
    if o.reply.Err? then (q, false)
    else if o.reply.value == [] then (q, true)
    else (Write(q, op), true)
  }

  // ---------------------------------------------------------------- one group

  /** A slide shown although the document has it deleted comes back with the
      next local edit. */
  function ReviveShown(d: Loro, nodes: Nodes, deck: seq<Slide>): Loro
    decreases |deck|
  {
    if deck == [] then d
    else
      var id := deck[0].ids.slide;
      ReviveShown(if id in nodes then SetDeleted(d, nodes[id], false) else d, nodes, deck[1..])
  }

  /** The ops of a group, up to the first that does not apply. */
  function RecordOps(r: Rep, ops: seq<Op>): (Rep, bool)
    decreases |ops|
  {
    if ops == [] then (r, true)
    else
      var (q, ok) := RecordOp(r, ops[0]);
      if ok then RecordOps(q, ops[1..]) else (q, false)
  }

  function RecordGroup(r: Rep, ops: seq<Op>): (Rep, bool) {
    RecordOps(r.(doc := ReviveShown(r.doc, r.nodes, r.deck)), ops)
  }

  // ---------------------------------------------------------------- a new document

  function Blank(peer: nat): Loro {
    Loro(map[], map[ROOT := []], map[], 0, peer, 1)
  }

  /** A slide's objects, each a new node at the end. */
  function PutObjects(d: Loro, nodes: Nodes, p: TreeID, objects: seq<SlideObject>, ids: seq<nat>): (Loro, Nodes)
    decreases |objects|
  {
    if objects == [] || ids == [] || p !in d.kids then (d, nodes)
    else
      var (f, n) := Create(d, p, None, None);
      PutObjects(WriteObject(f, n, objects[0]), nodes[ids[0] := n], p, objects[1..], ids[1..])
  }

  /** Each slide's node at the end of the root's, its objects' under it. */
  function Started(d: Loro, nodes: Nodes, slides: seq<Slide>): (Loro, Nodes)
    decreases |slides|
  {
    if slides == [] || ROOT !in d.kids then (d, nodes)
    else
      var s := slides[0];
      var (f, n) := Create(d, ROOT, None, None);
      var (e, more) := PutObjects(f, nodes[s.ids.slide := n], n, s.objects, s.ids.objects);
      Started(WriteSlide(e, more, n, s), more, slides[1..])
  }

  /** A shared document started from `slides`, numbered if they are not. */
  function Start(peer: nat, slides: seq<Slide>): Rep {
    var deck := EnsureIds(slides);
    var (d, nodes) := Started(Blank(peer), map[], deck);
    Rep(d, deck, nodes)
  }

  // ---------------------------------------------------------------- the document's deck

  function LiveSet(d: Loro): set<TreeID> {
    set n | n in d.kids && !IsDeleted(d, n)
  }

  function LiveKids(d: Loro, n: TreeID): seq<TreeID> {
    Pick(Children(d, n), LiveSet(d))
  }

  /** The slides shown: the live ones, or the first when every one is deleted. */
  function ShownSlides(d: Loro): seq<TreeID> {
    var live := LiveKids(d, ROOT);
    if live == [] && Children(d, ROOT) != [] then [Children(d, ROOT)[0]] else live
  }

  /** The live children of a slide whose registers make objects, and those objects. */
  function ReadKids(d: Loro, kids: seq<TreeID>): (seq<TreeID>, seq<SlideObject>) {
    if kids == [] then ([], [])
    else
      var (nodes, objects) := ReadKids(d, kids[1..]);
      var o := ReadObject(d, kids[0]);
      if o.Some? then ([kids[0]] + nodes, [o.value] + objects) else (nodes, objects)
  }

  /** The stored builds of live objects, named by the ids given to their nodes. */
  function NamedBuilds(stored: seq<StoredBuild>, nodes: seq<TreeID>, ids: seq<nat>): seq<Build>
    requires |nodes| == |ids|
  {
    if stored == [] then []
    else
      var at := Position(nodes, stored[0].node);
      var rest := NamedBuilds(stored[1..], nodes, ids);
      if at.Some? then [Build(ids[at.value], stored[0].effect, stored[0].out)] + rest else rest
  }

  /** The slide a node holds, with local ids from `next` on; the ids' nodes. */
  function ReadSlide(d: Loro, n: TreeID, next: nat): (Slide, seq<TreeID>) {
    var (props, hidden) := ReadProps(d, n);
    var (nodes, objects) := ReadKids(d, LiveKids(d, n));
    var ids := Fresh(next + 1, |nodes|);
    (Slide(props.(builds := NamedBuilds(ReadBuilds(d, n), nodes, ids)), hidden, objects, SlideIds(next, ids, [])),
     [n] + nodes)
  }

  /** The deck the document holds, slide by slide, each id counted on from `next`. */
  function ReadDeck(d: Loro, shown: seq<TreeID>, next: nat): seq<Slide> {
    if shown == [] then []
    else
      var (s, nodes) := ReadSlide(d, shown[0], next);
      [s] + ReadDeck(d, shown[1..], next + |nodes|)
  }

  /** `some` under the ids from `next` on. */
  function Counted(some: seq<TreeID>, next: nat): (r: Nodes)
    ensures forall x :: x in r <==> next <= x < next + |some|
    ensures forall x :: next <= x < next + |some| ==> r[x] == some[x - next]
    decreases |some|
  {
    if some == [] then map[] else Counted(some[1..], next + 1)[next := some[0]]
  }

  /** The node of each local id so given. */
  function ReadNodes(d: Loro, shown: seq<TreeID>, next: nat): Nodes
    decreases |shown|
  {
    if shown == [] then map[]
    else
      var (_, nodes) := ReadSlide(d, shown[0], next);
      ReadNodes(d, shown[1..], next + |nodes|) + Counted(nodes, next)
  }

  function Rebuilt(d: Loro): seq<Slide> {
    ReadDeck(d, ShownSlides(d), 1)
  }

  /** The replica once it has read its document. */
  function RebuiltRep(d: Loro): Rep {
    Rep(d, Rebuilt(d), ReadNodes(d, ShownSlides(d), 1))
  }
}
