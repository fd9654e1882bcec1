/** What a replica's document holds, next to its deck: the live nodes show
    the deck, the dead ones what an undo may bring back. */
module ReplicaRel {
  import opened Engine
  import opened Sequences
  import opened Ops
  import opened Numbering
  import opened Tree
  import opened Replicas
  import opened TreeLaws
  import opened RegisterLaws

  /** What the document keeps beyond the deck: for each deleted slide the
      objects still live under it; the deleted objects, by slide; and the
      objects (deleted, or just back) whose old builds a slide's register
      still lists. */
  datatype Past = Past(graves: map<nat, set<nat>>, tombs: set<(nat, nat)>, stale: set<(nat, nat)>)

  function Named(nodes: Nodes, ids: seq<nat>): (r: seq<TreeID>)
    ensures |r| == |ids|
    ensures forall i :: 0 <= i < |ids| && ids[i] in nodes ==> r[i] == nodes[ids[i]]
  {
    seq(|ids|, i requires 0 <= i < |ids| => if ids[i] in nodes then nodes[ids[i]] else ROOT)
  }

  /** The stored builds of the nodes in `keep`. */
  function KeepNodes(stored: seq<StoredBuild>, keep: set<TreeID>): seq<StoredBuild> {
    if stored == [] then []
    else (if stored[0].node in keep then [stored[0]] else []) + KeepNodes(stored[1..], keep)
  }

  predicate Mentions(stored: seq<StoredBuild>, n: TreeID) {
    exists k :: 0 <= k < |stored| && stored[k].node == n
  }

  /** The nodes of the slide's objects whose stored builds count. */
  function Kept(nodes: Nodes, s: Slide, stale: set<(nat, nat)>): set<TreeID> {
    set x | x in s.ids.objects && x in nodes && (s.ids.slide, x) !in stale :: nodes[x]
  }

  function ObjectSet(s: Slide): set<nat> {
    set x | x in s.ids.objects
  }

  // ---------------------------------------------------------------- the relation

  /** Each id has its own node. */
  ghost predicate NodesOk(d: Loro, nodes: Nodes) {
    && (forall a :: a in nodes ==> nodes[a] in d.kids && nodes[a] != ROOT)
    && (forall a, b :: a in nodes && b in nodes && nodes[a] == nodes[b] ==> a == b)
  }

  ghost predicate AllIn(ids: seq<nat>, nodes: Nodes) {
    forall x :: x in ids ==> x in nodes
  }

  /** The live children of the root are the deck's slides, in order. */
  ghost predicate RootRel(d: Loro, nodes: Nodes, deck: seq<Slide>) {
    AllIn(SlideIdsOf(deck), nodes) && LiveKids(d, ROOT) == Named(nodes, SlideIdsOf(deck))
  }

  /** The live children of a slide's node are its objects, in order. */
  ghost predicate KidsRel(d: Loro, nodes: Nodes, s: Slide) {
    s.ids.slide in nodes && AllIn(s.ids.objects, nodes) && LiveKids(d, nodes[s.ids.slide]) == Named(nodes, s.ids.objects)
  }

  /** The registers hold the slide's properties and its objects. */
  ghost predicate RegsRel(d: Loro, nodes: Nodes, s: Slide) {
    && |s.objects| == |s.ids.objects|
    && s.ids.slide in nodes
    && ReadProps(d, nodes[s.ids.slide]) == (s.props.(builds := []), s.hidden)
    && forall k :: 0 <= k < |s.objects| && s.ids.objects[k] in nodes ==> ReadObject(d, nodes[s.ids.objects[k]]) == Some(s.objects[k])
  }

  /** The builds of `s` are those its register lists for objects that are not stale. */
  ghost predicate BuildsRel(stored: seq<StoredBuild>, nodes: Nodes, s: Slide, stale: set<(nat, nat)>) {
    && KeepNodes(stored, Kept(nodes, s, stale)) == Stored(nodes, s.props.builds)
    && (forall b :: b in s.props.builds ==> b.target in s.ids.objects && (s.ids.slide, b.target) !in stale)
    && (forall x :: x in nodes && Mentions(stored, nodes[x]) && (s.ids.slide, x) !in stale ==> x in s.ids.objects)
  }

  ghost predicate StoredIn(d: Loro, stored: seq<StoredBuild>) {
    forall k :: 0 <= k < |stored| ==> stored[k].node in d.kids
  }

  ghost predicate SlideRel(d: Loro, nodes: Nodes, s: Slide, stale: set<(nat, nat)>) {
    && KidsRel(d, nodes, s)
    && RegsRel(d, nodes, s)
    && BuildsRel(ReadBuilds(d, nodes[s.ids.slide]), nodes, s, stale)
    && StoredIn(d, ReadBuilds(d, nodes[s.ids.slide]))
  }

  ghost predicate InSet(kids: seq<TreeID>, nodes: Nodes, objects: set<nat>) {
    && (forall x :: x in objects ==> x in nodes && nodes[x] in kids)
    && (forall n :: n in kids ==> exists x :: x in objects && x in nodes && nodes[x] == n)
  }

  /** A deleted slide's node, with the objects that come back with it. */
  ghost predicate GraveRel(d: Loro, nodes: Nodes, slide: nat, objects: set<nat>) {
    && slide in nodes
    && IsDeleted(d, nodes[slide])
    && nodes[slide] in d.parent && d.parent[nodes[slide]] == ROOT
    && InSet(LiveKids(d, nodes[slide]), nodes, objects)
  }

  /** A deleted object's node, where it was. */
  ghost predicate TombRel(d: Loro, nodes: Nodes, slide: nat, id: nat) {
    && slide in nodes && id in nodes
    && IsDeleted(d, nodes[id])
    && nodes[id] in d.parent && d.parent[nodes[id]] == nodes[slide]
  }

  ghost predicate SlidesRel(d: Loro, nodes: Nodes, deck: seq<Slide>, stale: set<(nat, nat)>) {
    forall s :: s in deck ==> SlideRel(d, nodes, s, stale)
  }

  ghost predicate PastRel(d: Loro, nodes: Nodes, a: Past) {
    && (forall s :: s in a.graves ==> GraveRel(d, nodes, s, a.graves[s]))
    && (forall s, x :: (s, x) in a.tombs ==> TombRel(d, nodes, s, x))
  }

  ghost predicate StaleKnown(nodes: Nodes, a: Past) {
    forall s, x :: (s, x) in a.stale ==> x in nodes
  }

  ghost predicate KnownIds(nodes: Nodes, deck: seq<Slide>) {
    nodes.Keys <= Ids(deck)
  }

  ghost predicate Rel(r: Rep, a: Past) {
    && WellFormed(r.doc) && Valid(r.deck)
    && NodesOk(r.doc, r.nodes) && KnownIds(r.nodes, r.deck)
    && RootRel(r.doc, r.nodes, r.deck)
    && SlidesRel(r.doc, r.nodes, r.deck, a.stale)
    && PastRel(r.doc, r.nodes, a)
    && StaleKnown(r.nodes, a)
  }

  /** As `Rel`, for a deck that may have no slide yet. */
  ghost predicate Based(r: Rep, a: Past) {
    && WellFormed(r.doc) && (r.deck == [] || Valid(r.deck))
    && NodesOk(r.doc, r.nodes) && KnownIds(r.nodes, r.deck)
    && RootRel(r.doc, r.nodes, r.deck)
    && SlidesRel(r.doc, r.nodes, r.deck, a.stale)
    && PastRel(r.doc, r.nodes, a)
    && StaleKnown(r.nodes, a)
  }

  lemma RelBased(r: Rep, a: Past)
    ensures Rel(r, a) <==> Based(r, a) && r.deck != []
  {
    hide WellFormed, NodesOk, KnownIds, RootRel, SlidesRel, PastRel, StaleKnown;
  }

  /** No object that is back has builds left over. */
  ghost predicate Settled(deck: seq<Slide>, a: Past) {
    forall s, x :: s in deck && x in s.ids.objects ==> (s.ids.slide, x) !in a.stale
  }

  // ---------------------------------------------------------------- what an op leaves alone

  ghost predicate KidsKept(d: Loro, e: Loro, m: TreeID) {
    forall q :: q in d.kids ==> q in e.kids && (q != m && q != ROOT ==> e.kids[q] == d.kids[q])
  }

  ghost predicate ParentsKept(d: Loro, e: Loro) {
    && (forall n :: n in d.parent ==> n in e.parent && e.parent[n] == d.parent[n])
    && (forall n :: n in d.kids && n !in d.parent ==> n !in e.parent)
  }

  predicate Under(d: Loro, n: TreeID, m: TreeID) {
    n == m || (n in d.parent && d.parent[n] == m)
  }

  ghost predicate RegsKept(d: Loro, e: Loro, m: TreeID) {
    forall n, k :: n in d.kids && !Under(d, n, m) ==> Get(e, n, k) == Get(d, n, k)
  }

  predicate TopLevel(d: Loro, m: TreeID) {
    m != ROOT && (m in d.parent ==> d.parent[m] == ROOT) && (m in d.kids ==> m in d.parent)
  }

  /** Only slide node `m`, its children and the order of the slides have changed. */
  ghost predicate Within(d: Loro, e: Loro, m: TreeID) {
    TopLevel(d, m) && KidsKept(d, e, m) && ParentsKept(d, e) && RegsKept(d, e, m)
  }

  lemma WithinTwice(d: Loro, e: Loro, f: Loro, m: TreeID)
    requires Within(d, e, m) && Within(e, f, m)
    ensures Within(d, f, m)
  {
    forall n, k | n in d.kids && !Under(d, n, m)
      ensures Get(f, n, k) == Get(d, n, k)
    {
      assert n in e.kids && !Under(e, n, m);
    }
  }

  lemma WithinRegs(d: Loro, e: Loro, n: TreeID, m: TreeID)
    requires OnlyRegsOf(d, e, n) && Under(d, n, m) && TopLevel(d, m)
    ensures Within(d, e, m)
  {
  }

  lemma WithinDeleted(d: Loro, n: TreeID, deleted: bool, m: TreeID)
    requires Under(d, n, m) && TopLevel(d, m)
    ensures Within(d, SetDeleted(d, n, deleted), m)
  {
  }

  lemma WithinOrder(d: Loro, e: Loro, p: TreeID, m: TreeID)
    requires OnlyOrder(d, e, p) && (p == m || p == ROOT) && TopLevel(d, m)
    ensures Within(d, e, m)
  {
  }

  lemma WithinGrown(d: Loro, e: Loro, n: TreeID, p: TreeID, m: TreeID)
    requires Grown(d, e, n, p) && WellFormed(d) && (p == m || (p == ROOT && n == m)) && TopLevel(d, m)
    ensures Within(d, e, m)
  {
    assert ParentsKept(d, e) by {
      GrownParents(d, e, n, p);
    }
    assert RegsKept(d, e, m);
    assert KidsKept(d, e, m);
  }

  lemma GrownParents(d: Loro, e: Loro, n: TreeID, p: TreeID)
    requires Grown(d, e, n, p) && WellFormed(d)
    ensures ParentsKept(d, e)
  {
  }

  ghost predicate RegsSame(d: Loro, e: Loro, n: TreeID) {
    forall k :: k != Deleted ==> Get(e, n, k) == Get(d, n, k)
  }

  lemma SameReads(d: Loro, e: Loro, n: TreeID)
    requires RegsSame(d, e, n)
    ensures ReadObject(e, n) == ReadObject(d, n) && ReadProps(e, n) == ReadProps(d, n) && ReadBuilds(e, n) == ReadBuilds(d, n)
  {
    SameObject(d, e, n);
    SameProps(d, e, n);
  }

  lemma SameObject(d: Loro, e: Loro, n: TreeID)
    requires RegsSame(d, e, n)
    ensures ReadObject(e, n) == ReadObject(d, n)
  {
    hide Get;
    forall f: Field
      ensures RealAt(e, n, f) == RealAt(d, n, f) && FieldText(e, n, f) == FieldText(d, n, f)
      ensures Get(e, n, FieldKey(f)) == Get(d, n, FieldKey(f))
    {
      assert FieldKey(f) != Deleted;
    }
    assert Get(e, n, Kind) == Get(d, n, Kind);
  }

  lemma SameProps(d: Loro, e: Loro, n: TreeID)
    requires RegsSame(d, e, n)
    ensures ReadProps(e, n) == ReadProps(d, n)
  {
    assert TextAt(e, n, TitleKey) == TextAt(d, n, TitleKey) && TextAt(e, n, Background) == TextAt(d, n, Background);
    assert TextAt(e, n, Notes) == TextAt(d, n, Notes) && Get(e, n, Picture) == Get(d, n, Picture);
    assert Get(e, n, TransitionKey) == Get(d, n, TransitionKey) && Get(e, n, Hidden) == Get(d, n, Hidden);
    assert IdAt(e, n, MasterId) == IdAt(d, n, MasterId) && IdAt(e, n, LayoutId) == IdAt(d, n, LayoutId);
  }

  /** Nodes `more` has beyond `nodes` are not in `d`. */
  ghost predicate Extends(d: Loro, nodes: Nodes, more: Nodes) {
    && (forall x :: x in nodes ==> x in more && more[x] == nodes[x])
    && (forall x :: x in more && x !in nodes ==> more[x] !in d.kids)
  }

  lemma ExtendsTwice(d: Loro, e: Loro, a: Nodes, b: Nodes, c: Nodes)
    requires Extends(d, a, b) && Extends(e, b, c) && forall q :: q in d.kids ==> q in e.kids
    ensures Extends(d, a, c)
  {
  }

  lemma {:induction false} StoredSame(nodes: Nodes, more: Nodes, builds: seq<Build>)
    requires forall b :: b in builds ==> b.target in nodes && b.target in more && more[b.target] == nodes[b.target]
    ensures Stored(more, builds) == Stored(nodes, builds)
  {
    if builds != [] {
      assert builds[0] in builds;
      StoredSame(nodes, more, builds[1..]);
    }
  }

  /** The live children of a node that is neither `m` nor the root. */
  lemma LiveElsewhere(d: Loro, e: Loro, m: TreeID, q: TreeID)
    requires Within(d, e, m) && WellFormed(d) && q in d.kids && q != m && q != ROOT
    ensures LiveKids(e, q) == LiveKids(d, q)
    ensures forall n, k :: n in LiveKids(d, q) ==> Get(e, n, k) == Get(d, n, k)
    ensures forall k :: q in d.parent && d.parent[q] != m ==> Get(e, q, k) == Get(d, q, k)
  {
    forall n | n in d.kids[q]
      ensures n in d.kids && !Under(d, n, m)
    {
    }
    LiveKidsHas(d, q);
    assert forall n :: n in d.kids[q] ==> (IsDeleted(e, n) <==> IsDeleted(d, n));
    SameLive(d, e, q);
  }

  /** A slide other than the one an op works on is shown as before. */
  lemma SlideStays(d: Loro, e: Loro, nodes: Nodes, more: Nodes, s: Slide, m: TreeID, stale: set<(nat, nat)>, stale': set<(nat, nat)>)
    requires WellFormed(d) && NodesOk(d, nodes) && Within(d, e, m) && Extends(d, nodes, more)
    requires SlideRel(d, nodes, s, stale) && nodes[s.ids.slide] != m
    requires nodes[s.ids.slide] in LiveKids(d, ROOT) && m != ROOT
    requires forall x :: (s.ids.slide, x) in stale' <==> (s.ids.slide, x) in stale
    ensures SlideRel(e, more, s, stale')
  {
    var q := nodes[s.ids.slide];
    LiveKidParent(d, ROOT, q);
    LiveElsewhere(d, e, m, q);
    assert RegsSame(d, e, q);
    SameReads(d, e, q);
    RegsStay(d, e, nodes, more, s);
    assert KidsKept(d, e, m);
    BuildsStay(d, nodes, more, ReadBuilds(d, q), s, stale, stale');
  }

  lemma RegsStay(d: Loro, e: Loro, nodes: Nodes, more: Nodes, s: Slide)
    requires KidsRel(d, nodes, s) && RegsRel(d, nodes, s) && Extends(d, nodes, more)
    requires LiveKids(e, nodes[s.ids.slide]) == LiveKids(d, nodes[s.ids.slide])
    requires forall n, k :: n in LiveKids(d, nodes[s.ids.slide]) ==> Get(e, n, k) == Get(d, n, k)
    requires ReadProps(e, nodes[s.ids.slide]) == ReadProps(d, nodes[s.ids.slide])
    ensures KidsRel(e, more, s) && RegsRel(e, more, s)
  {
    var q := nodes[s.ids.slide];
    assert Named(more, s.ids.objects) == Named(nodes, s.ids.objects);
    forall k | 0 <= k < |s.objects|
      ensures ReadObject(e, more[s.ids.objects[k]]) == Some(s.objects[k])
    {
      var x := s.ids.objects[k];
      assert x in s.ids.objects && more[x] == nodes[x] == LiveKids(d, q)[k];
      assert RegsSame(d, e, nodes[x]);
      SameObject(d, e, nodes[x]);
    }
  }

  lemma BuildsStay(d: Loro, nodes: Nodes, more: Nodes, stored: seq<StoredBuild>, s: Slide, stale: set<(nat, nat)>, stale': set<(nat, nat)>)
    requires Extends(d, nodes, more) && AllIn(s.ids.objects, nodes) && StoredIn(d, stored)
    requires BuildsRel(stored, nodes, s, stale)
    requires forall x :: (s.ids.slide, x) in stale' <==> (s.ids.slide, x) in stale
    ensures BuildsRel(stored, more, s, stale')
  {
    assert Kept(more, s, stale') == Kept(nodes, s, stale);
    StoredSame(nodes, more, s.props.builds);
  }

  lemma GraveStays(d: Loro, e: Loro, nodes: Nodes, more: Nodes, slide: nat, objects: set<nat>, m: TreeID)
    requires WellFormed(d) && NodesOk(d, nodes) && Within(d, e, m) && Extends(d, nodes, more)
    requires GraveRel(d, nodes, slide, objects) && nodes[slide] != m && m != ROOT
    ensures GraveRel(e, more, slide, objects)
  {
    LiveElsewhere(d, e, m, nodes[slide]);
    assert !Under(d, nodes[slide], m);
    forall n | n in LiveKids(e, more[slide])
      ensures exists x :: x in objects && x in more && more[x] == n
    {
      var x :| x in objects && x in nodes && nodes[x] == n;
      assert more[x] == n;
    }
  }

  /** A deleted object stays one, unless it is the one brought back. */
  lemma TombStays(d: Loro, e: Loro, nodes: Nodes, more: Nodes, slide: nat, id: nat, m: TreeID)
    requires NodesOk(d, nodes) && Within(d, e, m) && Extends(d, nodes, more)
    requires TombRel(d, nodes, slide, id)
    requires nodes[slide] == m ==> IsDeleted(e, nodes[id])
    requires nodes[id] != m
    ensures TombRel(e, more, slide, id)
  {
    if nodes[slide] != m {
      assert !Under(d, nodes[id], m);
    }
  }
}
