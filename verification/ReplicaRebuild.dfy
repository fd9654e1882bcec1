/** A deck read from any document is in step with it again: recording goes on
    from there. */
module ReplicaRebuild {
  import opened Engine
  import opened Sequences
  import opened Ops
  import opened Numbering
  import opened Timeline
  import opened OpLaws
  import opened Tree
  import opened Replicas
  import opened TreeLaws
  import opened RegisterLaws
  import opened ReplicaRel
  import opened ReplicaOps
  import opened ReplicaEdits
  import opened ReplicaSteps
  import opened ReplicaShows
  import opened ReplicaLine
  import opened ReplicaRuns
  import opened ReplicaDrift
  import opened ReplicaAside
  import opened ReplicaStart

  /** The registers of each live child of the slides shown make an object. */
  ghost predicate Readable(d: Loro, shown: seq<TreeID>) {
    forall n, m :: n in shown && m in LiveKids(d, n) ==> ReadObject(d, m).Some?
  }

  lemma {:induction false} AllRead(d: Loro, kids: seq<TreeID>)
    requires forall m :: m in kids ==> ReadObject(d, m).Some?
    ensures var (nodes, objects) := ReadKids(d, kids);
            nodes == kids && |objects| == |kids| && forall k :: 0 <= k < |kids| ==> ReadObject(d, kids[k]) == Some(objects[k])
  {
    hide ReadObject;
    if kids != [] {
      assert kids[0] in kids;
      assert forall m :: m in kids[1..] ==> m in kids;
      AllRead(d, kids[1..]);
      assert [kids[0]] + kids[1..] == kids;
      var (_, objects) := ReadKids(d, kids);
      var (_, rest) := ReadKids(d, kids[1..]);
      forall k | 0 <= k < |kids|
        ensures ReadObject(d, kids[k]) == Some(objects[k])
      {
        if k > 0 {
          assert kids[1..][k - 1] == kids[k] && objects[k] == rest[k - 1];
        }
      }
    }
  }

  /** A slide as read: its own id, then one for each object, counted on. */
  ghost predicate ReadAs(d: Loro, n: TreeID, next: nat, s: Slide, nodes: seq<TreeID>) {
    && nodes == [n] + LiveKids(d, n)
    && s.ids == SlideIds(next, Fresh(next + 1, |LiveKids(d, n)|), [])
    && |s.objects| == |LiveKids(d, n)|
    && ReadProps(d, n) == (s.props.(builds := []), s.hidden)
    && (forall k :: 0 <= k < |s.objects| ==> ReadObject(d, LiveKids(d, n)[k]) == Some(s.objects[k]))
    && s.props.builds == NamedBuilds(ReadBuilds(d, n), LiveKids(d, n), s.ids.objects)
  }

  lemma SlideRead(d: Loro, shown: seq<TreeID>, n: TreeID, next: nat)
    requires Readable(d, shown) && n in shown
    ensures var (s, nodes) := ReadSlide(d, n, next); ReadAs(d, n, next, s, nodes)
  {
    hide ReadObject, ReadBuilds, LiveKids, NamedBuilds;
    AllRead(d, LiveKids(d, n));
  }

  // ---------------------------------------------------------------- the nodes of the ids

  /** The slides shown: each once, under the root; their children apart. */
  ghost predicate TopNodes(d: Loro, shown: seq<TreeID>) {
    && NoDup(shown)
    && forall n :: n in shown ==> n in d.kids && n in d.parent && d.parent[n] == ROOT && n != ROOT
  }

  /** `m` is one of the slides, or a live child of one. */
  ghost predicate OfSlides(d: Loro, shown: seq<TreeID>, m: TreeID) {
    m in shown || (m in d.parent && d.parent[m] in shown && !IsDeleted(d, m))
  }

  /** The ids from `next` on are those of `some`. */
  ghost predicate HeldAt(nodes: Nodes, next: nat, some: seq<TreeID>) {
    forall x :: next <= x < next + |some| ==> x in nodes && nodes[x] == some[x - next]
  }

  lemma OneRange(some: seq<TreeID>, next: nat, rest: Nodes, all: Nodes)
    requires all == rest + Counted(some, next)
    requires forall x :: x in rest ==> x >= next + |some|
    ensures forall x :: x in all <==> x in rest || next <= x < next + |some|
    ensures forall x :: x in rest ==> all[x] == rest[x]
    ensures HeldAt(all, next, some)
  {
  }

  lemma HeldMore(rest: Nodes, all: Nodes, next: nat, some: seq<TreeID>)
    requires HeldAt(rest, next, some) && forall x :: x in rest ==> x in all && all[x] == rest[x]
    ensures HeldAt(all, next, some)
  {
  }

  lemma {:induction false} NodesRead(d: Loro, shown: seq<TreeID>, next: nat)
    requires WellFormed(d) && TopNodes(d, shown) && Readable(d, shown)
    ensures var nodes := ReadNodes(d, shown, next);
            && NodesOk(d, nodes)
            && (forall x :: x in nodes ==> x >= next && OfSlides(d, shown, nodes[x]))
    decreases |shown|
  {
    hide ReadObject, ReadBuilds, LiveKids, WellFormed, ReadSlide, TopNodes, Readable, OfSlides, NodesOk;
    if shown == [] {
      NoNodes(d);
    } else {
      var n := shown[0];
      assert n in shown;
      SlideRead(d, shown, n, next);
      var (s, some) := ReadSlide(d, n, next);
      RestTop(d, shown);
      NodesRead(d, shown[1..], next + |some|);
      var rest := ReadNodes(d, shown[1..], next + |some|);
      OneRange(some, next, rest, ReadNodes(d, shown, next));
      SomeApart(d, shown, some);
      NodesJoined(d, shown, some, next, rest, ReadNodes(d, shown, next));
    }
  }

  lemma NoNodes(d: Loro)
    ensures NodesOk(d, map[])
  {
  }

  lemma NodesJoined(d: Loro, shown: seq<TreeID>, some: seq<TreeID>, next: nat, rest: Nodes, all: Nodes)
    requires NodesOk(d, rest) && shown != []
    requires forall x :: x in rest ==> x >= next + |some| && OfSlides(d, shown[1..], rest[x])
    requires forall x :: x in all <==> x in rest || next <= x < next + |some|
    requires forall x :: x in rest ==> all[x] == rest[x]
    requires HeldAt(all, next, some) && NoDup(some)
    requires forall m :: m in some ==> OfSlides(d, shown, m) && !OfSlides(d, shown[1..], m) && m in d.kids && m != ROOT
    requires forall m :: OfSlides(d, shown[1..], m) ==> OfSlides(d, shown, m)
    ensures NodesOk(d, all) && forall x :: x in all ==> x >= next && OfSlides(d, shown, all[x])
  {
    hide OfSlides;
    forall x | x in all
      ensures x in rest <==> OfSlides(d, shown[1..], all[x])
      ensures x !in rest ==> all[x] in some
    {
      if x !in rest {
        assert all[x] == some[x - next];
      }
    }
    forall a, b | a in all && b in all && all[a] == all[b]
      ensures a == b
    {
      assert a in rest <==> b in rest;
      if a !in rest {
        assert all[a] == some[a - next] && all[b] == some[b - next];
      }
    }
  }

  lemma RestTop(d: Loro, shown: seq<TreeID>)
    requires TopNodes(d, shown) && Readable(d, shown) && shown != []
    ensures TopNodes(d, shown[1..]) && Readable(d, shown[1..]) && shown[0] !in shown[1..]
    ensures forall m :: OfSlides(d, shown[1..], m) ==> OfSlides(d, shown, m)
  {
    assert forall m :: m in shown[1..] ==> m in shown;
  }

  /** A slide's node and its live children, each once, are none of the other
      slides', nor their children. */
  lemma SomeApart(d: Loro, shown: seq<TreeID>, some: seq<TreeID>)
    requires WellFormed(d) && TopNodes(d, shown) && shown != [] && some == [shown[0]] + LiveKids(d, shown[0])
    ensures NoDup(some)
    ensures forall m :: m in some ==> OfSlides(d, shown, m) && !OfSlides(d, shown[1..], m) && m in d.kids && m != ROOT
  {
    hide LiveKids, WellFormed;
    var n := shown[0];
    assert n in shown && n !in shown[1..];
    LiveKidsNoDup(d, n);
    RootKnown(d);
    forall m | m in LiveKids(d, n)
      ensures m in d.kids && m in d.parent && d.parent[m] == n && m != n && m != ROOT && !IsDeleted(d, m)
    {
      LiveKidParent(d, n, m);
      RootTop(d);
    }
    assert forall m :: m in some <==> m == n || m in LiveKids(d, n);
    assert ROOT !in shown[1..] by {
      assert forall m :: m in shown[1..] ==> m in shown;
    }
    assert forall m :: m in shown[1..] ==> m in shown && d.parent[m] == ROOT;
  }

  lemma RootTop(d: Loro)
    requires WellFormed(d)
    ensures ROOT !in d.parent
  {
  }

  // ---------------------------------------------------------------- one slide

  lemma {:induction false} StoredNamed(nodes: Nodes, stored: seq<StoredBuild>, kids: seq<TreeID>, ids: seq<nat>, keep: set<TreeID>)
    requires AllIn(ids, nodes) && kids == Named(nodes, ids) && forall n :: n in kids <==> n in keep
    ensures KeepNodes(stored, keep) == Stored(nodes, NamedBuilds(stored, kids, ids))
  {
    if stored != [] {
      StoredNamed(nodes, stored[1..], kids, ids, keep);
      var at := Position(kids, stored[0].node);
      var rest := NamedBuilds(stored[1..], kids, ids);
      if at.Some? {
        assert ids[at.value] in ids && nodes[ids[at.value]] == kids[at.value];
        var b := Build(ids[at.value], stored[0].effect, stored[0].out);
        assert ([b] + rest)[1..] == rest;
      }
    }
  }

  /** Builds are listed only of nodes that have been made. */
  ghost predicate Founded(d: Loro) {
    forall n, k :: 0 <= k < |ReadBuilds(d, n)| ==> ReadBuilds(d, n)[k].node in d.kids
  }

  lemma OneNode(nodes: Nodes, some: seq<TreeID>, next: nat, s: Slide, n: TreeID, kids: seq<TreeID>)
    requires some == [n] + kids && s.ids.slide == next && s.ids.objects == Fresh(next + 1, |kids|)
    requires HeldAt(nodes, next, some)
    ensures NodeIs(nodes, s, n) && AllIn(s.ids.objects, nodes) && Named(nodes, s.ids.objects) == kids
  {
    var ids := s.ids.objects;
    assert next in nodes && nodes[next] == some[0];
    forall k | 0 <= k < |ids|
      ensures ids[k] in nodes && nodes[ids[k]] == kids[k]
    {
      var x := next + 1 + k;
      assert x in nodes && nodes[x] == some[x - next] == some[k + 1];
    }
  }

  /** Whatever is not on slide `s` counts as left over there. */
  ghost predicate OthersStale(nodes: Nodes, s: Slide, stale: set<(nat, nat)>) {
    && (forall x :: x in s.ids.objects ==> (s.ids.slide, x) !in stale)
    && (forall x :: x in nodes && x !in s.ids.objects ==> (s.ids.slide, x) in stale)
  }

  /** Its builds are those its register lists for its own objects. */
  lemma ReadBuildsRel(stored: seq<StoredBuild>, nodes: Nodes, s: Slide, kids: seq<TreeID>, stale: set<(nat, nat)>)
    requires AllIn(s.ids.objects, nodes) && kids == Named(nodes, s.ids.objects)
    requires s.props.builds == NamedBuilds(stored, kids, s.ids.objects) && OthersStale(nodes, s, stale)
    ensures BuildsRel(stored, nodes, s, stale)
  {
    hide KeepNodes, Stored, NamedBuilds, Named, Kept, Mentions;
    KeptAll(nodes, s, stale);
    StoredNamed(nodes, stored, kids, s.ids.objects, Kept(nodes, s, stale));
    NamedLive(stored, kids, s.ids.objects);
  }

  /** A slide just read is in step with the document. */
  lemma ReadSlideRel(d: Loro, n: TreeID, next: nat, s: Slide, some: seq<TreeID>, nodes: Nodes, stale: set<(nat, nat)>)
    requires ReadAs(d, n, next, s, some) && NodesOk(d, nodes) && HeldAt(nodes, next, some)
    requires Founded(d) && OthersStale(nodes, s, stale)
    ensures SlideRel(d, nodes, s, stale) && NodeIs(nodes, s, n)
  {
    hide ReadObject, ReadBuilds, LiveKids, NamedBuilds, ReadProps, Named, BuildsRel, NodesOk, OthersStale;
    var ids := s.ids.objects;
    OneNode(nodes, some, next, s, n, LiveKids(d, n));
    ReadBuildsRel(ReadBuilds(d, n), nodes, s, LiveKids(d, n), stale);
    forall k | 0 <= k < |s.objects| && ids[k] in nodes
      ensures ReadObject(d, nodes[ids[k]]) == Some(s.objects[k])
    {
      assert Named(nodes, ids)[k] == nodes[ids[k]];
    }
  }

  // ---------------------------------------------------------------- the deck

  /** The `i`-th slide read is numbered from some `from` on, and its nodes
      are those of its ids. */
  lemma {:induction false} SlideAt(d: Loro, shown: seq<TreeID>, next: nat, i: nat) returns (from: nat, some: seq<TreeID>)
    requires WellFormed(d) && TopNodes(d, shown) && Readable(d, shown) && i < |shown|
    ensures |ReadDeck(d, shown, next)| == |shown|
    ensures next <= from && ReadAs(d, shown[i], from, ReadDeck(d, shown, next)[i], some)
    ensures i > 0 ==> next < from
    ensures HeldAt(ReadNodes(d, shown, next), from, some)
    decreases |shown|
  {
    hide ReadObject, ReadBuilds, LiveKids, WellFormed, ReadSlide, ReadAs, TopNodes, OfSlides, NodesOk, HeldAt, Readable;
    ReadDeckLength(d, shown, next);
    var n := shown[0];
    SlideRead(d, shown, n, next);
    var (s, first) := ReadSlide(d, n, next);
    RestTop(d, shown);
    NodesRead(d, shown[1..], next + |first|);
    OneRange(first, next, ReadNodes(d, shown[1..], next + |first|), ReadNodes(d, shown, next));
    if i == 0 {
      from, some := next, first;
    } else {
      SomeFirst(d, n, next, s, first);
      from, some := SlideAt(d, shown[1..], next + |first|, i - 1);
      HeldMore(ReadNodes(d, shown[1..], next + |first|), ReadNodes(d, shown, next), from, some);
    }
  }

  lemma SomeFirst(d: Loro, n: TreeID, next: nat, s: Slide, some: seq<TreeID>)
    requires ReadAs(d, n, next, s, some)
    ensures |some| > 0 && s.ids.slide == next
  {
  }

  lemma {:induction false} ReadIds(d: Loro, shown: seq<TreeID>, next: nat)
    requires WellFormed(d) && TopNodes(d, shown) && Readable(d, shown) && next > 0
    ensures var deck := ReadDeck(d, shown, next);
            && |deck| == |shown| && NoDup(SlideIdsOf(deck))
            && (forall i :: 0 <= i < |deck| ==> Sound(deck[i]) && deck[i].ids.slide >= next)
            && (forall x :: x in ReadNodes(d, shown, next) ==> x in Ids(deck))
    decreases |shown|
  {
    hide ReadObject, ReadBuilds, LiveKids, WellFormed, ReadSlide, TopNodes, Readable, ReadAs, OfSlides, NodesOk, HeldAt, Ids, Sound;
    if shown != [] {
      var n := shown[0];
      SlideRead(d, shown, n, next);
      var (s, some) := ReadSlide(d, n, next);
      RestTop(d, shown);
      ReadIds(d, shown[1..], next + |some|);
      NodesRead(d, shown[1..], next + |some|);
      var rest, nodes := ReadNodes(d, shown[1..], next + |some|), ReadNodes(d, shown, next);
      OneRange(some, next, rest, nodes);
      var deck, tail := ReadDeck(d, shown, next), ReadDeck(d, shown[1..], next + |some|);
      assert deck == [s] + tail;
      CountsIds(d, n, next, s, some);
      IdsFirst(s, tail, next, |some|);
      ReadDeckLength(d, shown, next);
      MoreIds(s, tail, next);
    }
  }

  lemma MoreIds(s: Slide, tail: seq<Slide>, next: nat)
    requires s.ids.slide == next && Sound(s) && NoDup(SlideIdsOf(tail))
    requires forall i :: 0 <= i < |tail| ==> Sound(tail[i]) && tail[i].ids.slide > next
    ensures var deck := [s] + tail;
            NoDup(SlideIdsOf(deck)) && forall i :: 0 <= i < |deck| ==> Sound(deck[i]) && deck[i].ids.slide >= next
  {
    hide Sound;
    assert SlideIdsOf([s] + tail) == [next] + SlideIdsOf(tail);
  }

  lemma CountsIds(d: Loro, n: TreeID, next: nat, s: Slide, some: seq<TreeID>)
    requires ReadAs(d, n, next, s, some) && next > 0
    ensures |some| > 0 && s.ids.slide == next && s.ids.objects == Fresh(next + 1, |some| - 1) && Sound(s)
  {
    hide LiveKids, ReadObject, ReadProps, ReadBuilds;
    FreshApart(next + 1, |some| - 1);
  }

  lemma IdsFirst(s: Slide, tail: seq<Slide>, next: nat, count: nat)
    requires count > 0 && s.ids.slide == next && s.ids.objects == Fresh(next + 1, count - 1)
    ensures Ids(tail) <= Ids([s] + tail)
    ensures forall x :: next <= x < next + count ==> x in Ids([s] + tail)
  {
    var deck := [s] + tail;
    forall x | x in Ids(tail)
      ensures x in Ids(deck)
    {
      var i :| 0 <= i < |tail| && x in SlideIdList(tail[i]);
      assert deck[i + 1] == tail[i];
    }
    assert deck[0] == s;
    forall x | next <= x < next + count
      ensures x in Ids(deck)
    {
      assert x == next || s.ids.objects[x - next - 1] == x;
      assert x in SlideIdList(s);
    }
  }

  /** What every slide's register may list of the objects of the others. */
  ghost function LeftOver(r: Rep): Past {
    Past(map[], {}, set s, x | s in r.deck && x in r.nodes && x !in s.ids.objects :: (s.ids.slide, x))
  }

  lemma LeftOverIs(r: Rep, s: Slide)
    requires NoDup(SlideIdsOf(r.deck)) && s in r.deck
    ensures OthersStale(r.nodes, s, LeftOver(r).stale)
  {
    var i :| 0 <= i < |r.deck| && r.deck[i] == s;
    forall t | t in r.deck && t.ids.slide == s.ids.slide
      ensures t == s
    {
      var j :| 0 <= j < |r.deck| && r.deck[j] == t;
      assert SlideIdsOf(r.deck)[i] == SlideIdsOf(r.deck)[j];
    }
  }

  /** The slides shown are live and all their live objects are read. */
  ghost predicate Whole(d: Loro) {
    WellFormed(d) && Founded(d) && LiveKids(d, ROOT) != [] && Readable(d, ShownSlides(d))
  }

  lemma ShownTop(d: Loro)
    requires WellFormed(d) && LiveKids(d, ROOT) != []
    ensures TopNodes(d, ShownSlides(d)) && ShownSlides(d) == LiveKids(d, ROOT)
  {
    hide LiveKids;
    RootTop(d);
    LiveKidsNoDup(d, ROOT);
    forall n | n in LiveKids(d, ROOT)
      ensures n in d.kids && n in d.parent && d.parent[n] == ROOT && n != ROOT
    {
      LiveKidParent(d, ROOT, n);
    }
  }

  /** A replica that has read a whole document is in step with it. */
  lemma WholeRel(d: Loro)
    requires Whole(d)
    ensures var r := RebuiltRep(d); Rel(r, LeftOver(r)) && Settled(r.deck, LeftOver(r))
  {
    hide ReadObject, ReadBuilds, LiveKids, WellFormed, ReadDeck, ReadNodes, TopNodes, NodesOk, SlideRel, Readable, Founded, OfSlides, RootRel, OthersStale;
    var r := RebuiltRep(d);
    var shown := ShownSlides(d);
    ShownTop(d);
    NodesRead(d, shown, 1);
    ReadIds(d, shown, 1);
    forall s | s in r.deck
      ensures SlideRel(d, r.nodes, s, LeftOver(r).stale)
    {
      var i :| 0 <= i < |r.deck| && r.deck[i] == s;
      var from, some := SlideAt(d, shown, 1, i);
      LeftOverIs(r, s);
      ReadSlideRel(d, shown[i], from, s, some, r.nodes, LeftOver(r).stale);
    }
    RootRead(d, r, shown);
    NothingBack(r);
  }

  lemma NothingBack(r: Rep)
    requires NoDup(SlideIdsOf(r.deck))
    ensures Settled(r.deck, LeftOver(r))
  {
    hide LeftOver;
    forall s, x | s in r.deck && x in s.ids.objects
      ensures (s.ids.slide, x) !in LeftOver(r).stale
    {
      LeftOverIs(r, s);
    }
  }

  lemma RootRead(d: Loro, r: Rep, shown: seq<TreeID>)
    requires r == RebuiltRep(d) && shown == ShownSlides(d) == LiveKids(d, ROOT) && TopNodes(d, shown) && Whole(d)
    ensures RootRel(d, r.nodes, r.deck)
  {
    hide ReadObject, ReadBuilds, LiveKids, WellFormed, ReadDeck, ReadNodes, TopNodes, NodesOk, Readable, Founded, OfSlides;
    var ids := SlideIdsOf(r.deck);
    ReadDeckLength(d, shown, 1);
    NodesRead(d, shown, 1);
    forall i | 0 <= i < |ids|
      ensures ids[i] in r.nodes && r.nodes[ids[i]] == shown[i]
    {
      var from, some := SlideAt(d, shown, 1, i);
      SomeFirst(d, shown[i], from, r.deck[i], some);
      FirstNode(d, shown[i], from, r.deck[i], some);
      assert from in r.nodes && r.nodes[from] == some[0];
    }
    assert Named(r.nodes, ids) == shown;
  }

  lemma FirstNode(d: Loro, n: TreeID, next: nat, s: Slide, some: seq<TreeID>)
    requires ReadAs(d, n, next, s, some)
    ensures some != [] && some[0] == n
  {
  }

  // ---------------------------------------------------------------- objects that cannot be read

  /** The live objects of the slides shown whose registers make none. */
  function Unread(d: Loro): set<TreeID> {
    set n, m | n in ShownSlides(d) && m in LiveKids(d, n) && ReadObject(d, m).None? :: m
  }

  /** Slides shown, dead or alive, are under the root. */
  lemma ShownUnderRoot(d: Loro, n: TreeID)
    requires WellFormed(d) && n in ShownSlides(d)
    ensures n in Children(d, ROOT) && n in d.kids && n in d.parent && d.parent[n] == ROOT && n != ROOT
  {
    hide LiveKids;
    LiveKidsHas(d, ROOT);
    RootTop(d);
    assert n in Children(d, ROOT);
  }

  lemma UnreadPlace(d: Loro, m: TreeID)
    requires WellFormed(d) && m in Unread(d)
    ensures m in d.kids && m in d.parent && d.parent[m] in ShownSlides(d) && d.parent[m] != ROOT && m != ROOT
    ensures ReadObject(d, m).None? && m !in Children(d, ROOT)
  {
    hide LiveKids, ReadObject, ShownSlides;
    var n :| n in ShownSlides(d) && m in LiveKids(d, n);
    ShownUnderRoot(d, n);
    LiveKidParent(d, n, m);
    RootTop(d);
  }

  lemma UnreadIdle(d: Loro)
    requires WellFormed(d)
    ensures Idle(d, Unread(d))
  {
    hide Unread, ReadObject;
    RootTop(d);
    forall m | m in Unread(d)
      ensures m in d.kids && m != ROOT && ReadObject(d, m).None? && m !in Children(d, ROOT)
    {
      UnreadPlace(d, m);
    }
  }

  /** With those deleted, all that is live on the slides shown is read. */
  lemma SweptReadable(d: Loro)
    requires WellFormed(d) && Founded(d)
    ensures var e := Swept(d, Unread(d));
            WellFormed(e) && Founded(e) && Readable(e, ShownSlides(e)) && ShownSlides(e) == ShownSlides(d)
  {
    hide ReadObject, ReadBuilds, ShownSlides, Idle, Unread, WellFormed;
    var gone := Unread(d);
    var e := Swept(d, gone);
    UnreadIdle(d);
    SweptShown(d, gone);
    SweptWellFormed(d, gone);
    forall n
      ensures ReadBuilds(e, n) == ReadBuilds(d, n)
    {
      SweptReads(d, n, gone);
    }
    forall n, m | n in ShownSlides(d) && m in LiveKids(e, n)
      ensures ReadObject(e, m).Some?
    {
      SweptKid(d, n, m);
    }
  }

  lemma SweptKid(d: Loro, n: TreeID, m: TreeID)
    requires n in ShownSlides(d) && m in LiveKids(Swept(d, Unread(d)), n)
    ensures ReadObject(Swept(d, Unread(d)), m).Some?
  {
    hide ReadObject, ShownSlides, LiveSet, Swept, Pick;
    var e := Swept(d, Unread(d));
    LiveKidsHas(e, n);
    LiveKidsHas(d, n);
    SweptLive(d, Unread(d));
    SweptReads(d, m, Unread(d));
  }

  lemma SweptWellFormed(d: Loro, gone: set<TreeID>)
    requires WellFormed(d) && gone == Unread(d)
    ensures WellFormed(Swept(d, gone))
  {
    hide Unread;
    forall m | m in gone
      ensures m in d.kids
    {
      UnreadPlace(d, m);
    }
  }

  // ---------------------------------------------------------------- every slide deleted

  /** Where every slide is deleted the first, which is shown, made live. */
  function Woken(d: Loro): Loro {
    if LiveKids(d, ROOT) == [] && Children(d, ROOT) != [] then SetDeleted(d, Children(d, ROOT)[0], false) else d
  }

  lemma WokenLive(d: Loro)
    requires WellFormed(d) && LiveKids(d, ROOT) == [] && Children(d, ROOT) != []
    ensures var n := Children(d, ROOT)[0]; var e := Woken(d);
            && WellFormed(e) && LiveKids(e, ROOT) == [n] && ShownSlides(e) == [n] == ShownSlides(d)
            && LiveKids(e, n) == LiveKids(d, n) && n !in LiveKids(d, n)
  {
    hide LiveKids, SetDeleted, Taken;
    var n := Children(d, ROOT)[0];
    assert n in Children(d, ROOT);
    ShownUnderRoot(d, n);
    SetDeletedTree(d, n, false);
    Revived(d, n, ROOT);
    Revived(d, n, n);
    LiveKidsHas(d, n);
    LiveKidsHas(d, ROOT);
    var e := Woken(d);
    LiveKidsHas(e, ROOT);
    NoneTaken(n);
    AloneLive(LiveKids(e, ROOT), n);
  }

  lemma NoneTaken(n: TreeID)
    ensures Taken([], n) == []
  {
  }

  lemma OneRead(d: Loro, n: TreeID)
    ensures ReadDeck(d, [n], 1) == [ReadSlide(d, n, 1).0] && ReadNodes(d, [n], 1) == Counted(ReadSlide(d, n, 1).1, 1)
  {
    hide ReadSlide;
    assert [n][1..] == [];
    assert ReadNodes(d, [], 1 + |ReadSlide(d, n, 1).1|) == map[];
  }

  lemma WokenReads(d: Loro, m: TreeID)
    ensures ReadObject(Woken(d), m) == ReadObject(d, m) && ReadProps(Woken(d), m) == ReadProps(d, m)
    ensures ReadBuilds(Woken(d), m) == ReadBuilds(d, m) && Woken(d).kids == d.kids
  {
    assert RegsSame(d, Woken(d), m);
    SameReads(d, Woken(d), m);
  }

  lemma {:induction false} WokenKids(d: Loro, kids: seq<TreeID>)
    ensures ReadKids(Woken(d), kids) == ReadKids(d, kids)
  {
    hide ReadObject, Woken;
    if kids != [] {
      WokenReads(d, kids[0]);
      WokenKids(d, kids[1..]);
    }
  }

  /** The same deck is read from it, and all that is live there is read. */
  lemma WokenWhole(d: Loro)
    requires WellFormed(d) && Founded(d) && Readable(d, ShownSlides(d)) && Children(d, ROOT) != []
    ensures Whole(Woken(d)) && RebuiltRep(Woken(d)) == RebuiltRep(d).(doc := Woken(d))
  {
    hide ReadObject, ReadBuilds, LiveKids, WellFormed, ReadProps;
    if LiveKids(d, ROOT) == [] {
      hide Woken;
      var n, e := Children(d, ROOT)[0], Woken(d);
      WokenLive(d);
      WokenKids(d, LiveKids(d, n));
      WokenReads(d, n);
      assert ReadSlide(e, n, 1) == ReadSlide(d, n, 1);
      OneRead(d, n);
      OneRead(e, n);
      assert n in ShownSlides(d);
      forall m
        ensures ReadBuilds(e, m) == ReadBuilds(d, m) && ReadObject(e, m) == ReadObject(d, m) && e.kids == d.kids
      {
        WokenReads(d, m);
      }
    }
  }

  /** What the first recorded group finds: its slide made live. */
  lemma RevivedIsWoken(d: Loro)
    requires WellFormed(d) && Founded(d) && Readable(d, ShownSlides(d)) && Children(d, ROOT) != []
    ensures var r := RebuiltRep(d); ReviveShown(d, r.nodes, r.deck) == Woken(d)
  {
    hide ReadObject, ReadBuilds, LiveKids, WellFormed, SetDeleted, Readable, Founded, ReadSlide, Rel;
    var r := RebuiltRep(d);
    if LiveKids(d, ROOT) == [] {
      var n := Children(d, ROOT)[0];
      assert n in ShownSlides(d);
      var (s, some) := ReadSlide(d, n, 1);
      SlideRead(d, ShownSlides(d), n, 1);
      SomeFirst(d, n, 1, s, some);
      FirstNode(d, n, 1, s, some);
      OneRead(d, n);
      assert r.deck == [s] && r.deck[1..] == [] && r.nodes[1] == n;
    } else {
      WholeRel(d);
      RevivedAlready(r, LeftOver(r));
    }
  }

  lemma RevivedAlready(r: Rep, a: Past)
    requires Rel(r, a)
    ensures ReviveShown(r.doc, r.nodes, r.deck) == r.doc
  {
    hide Rel, IsDeleted, ReviveShown;
    forall s | s in r.deck && s.ids.slide in r.nodes
      ensures !IsDeleted(r.doc, r.nodes[s.ids.slide])
    {
      var j :| 0 <= j < |r.deck| && r.deck[j] == s;
      LiveNode(r, a, j);
    }
    AllAlive(r.doc, r.nodes, r.deck);
  }

  // ---------------------------------------------------------------- any document with a slide

  /** The document with what cannot be read deleted, and the slides shown live. */
  function Cleared(d: Loro): Loro {
    Woken(Swept(d, Unread(d)))
  }

  lemma RebuiltOf(d: Loro)
    ensures RebuiltRep(d).doc == d && RebuiltRep(d).deck == Rebuilt(d)
  {
  }

  /** A replica that has read any document with a slide, dead or alive, is in
      step with that. */
  lemma RebuiltRel(d: Loro)
    requires WellFormed(d) && Founded(d) && Children(d, ROOT) != []
    ensures var r := RebuiltRep(d).(doc := Cleared(d)); Rel(r, LeftOver(r)) && Settled(r.deck, LeftOver(r))
    ensures Aside(RebuiltRep(d), Unread(d))
    ensures RebuiltRep(Cleared(d)) == RebuiltRep(d).(doc := Cleared(d))
  {
    hide RebuiltRep, LiveKids, WellFormed, Founded, Unread, Swept, Readable, ShownSlides, Rel, Settled, LeftOver, Woken, Whole, Idle, Get, IsDeleted, SetDeleted, Rebuilt, ReviveShown;
    SweptReadable(d);
    UnreadIdle(d);
    SweptRebuilt(d, Unread(d));
    var e := Swept(d, Unread(d));
    RebuiltOf(d);
    WokenWhole(e);
    WholeRel(Woken(e));
    NoneUnread(d);
  }

  /** No id is given to what could not be read. */
  lemma NoneUnread(d: Loro)
    requires WellFormed(d) && Whole(Cleared(d)) && RebuiltRep(Cleared(d)).nodes == RebuiltRep(d).nodes
    ensures forall x :: x in RebuiltRep(d).nodes ==> RebuiltRep(d).nodes[x] !in Unread(d)
  {
    hide ReadObject, LiveKids, WellFormed, Founded, Readable, ReadNodes, ReadDeck, Unread, ShownSlides;
    var f := Cleared(d);
    var shown := ShownSlides(f);
    ShownTop(f);
    NodesRead(f, shown, 1);
    forall x | x in RebuiltRep(d).nodes
      ensures RebuiltRep(d).nodes[x] !in Unread(d)
    {
      NotOfSlides(d, RebuiltRep(d).nodes[x]);
    }
  }

  lemma NotOfSlides(d: Loro, m: TreeID)
    requires WellFormed(d) && Whole(Cleared(d))
    ensures m in Unread(d) ==> !OfSlides(Cleared(d), ShownSlides(Cleared(d)), m)
  {
    hide ReadObject, LiveKids, WellFormed, Founded, Readable, Unread, Swept;
    if m in Unread(d) {
      UnreadPlace(d, m);
      var f := Cleared(d);
      ShownTop(f);
      assert f.parent == d.parent;
      assert IsDeleted(f, m);
    }
  }

  /** The first recorded group brings back what is shown: from then on the
      document's live slides are the deck's. */
  lemma FirstGroupRevives(d: Loro, masters: seq<Master>, ops: seq<Op>)
    requires WellFormed(d) && Founded(d) && Children(d, ROOT) != []
    requires NewAll(Rebuilt(d), ops) && ApplyAll(Doc(Rebuilt(d), masters), ops).reply.Ok?
    ensures var (q, ok) := RecordGroup(RebuiltRep(d), ops);
            && ok && q.deck == ApplyAll(Doc(Rebuilt(d), masters), ops).doc.slides
            && LiveKids(q.doc, ROOT) == Named(q.nodes, SlideIdsOf(q.deck))
  {
    hide Rel, Settled, LeftOver, NewAll, LiveKids, WellFormed, Founded, Unread, RecordGroup, Cleared, Rebuilt, Idle, ApplyAll, Named, NewOrBack;
    RebuiltRel(d);
    var r := RebuiltRep(d);
    var c := r.(doc := Cleared(d));
    NewEither(r.deck, LeftOver(c), ops);
    GroupRecorded(c, LeftOver(c), Doc(r.deck, masters), ops);
    GroupAside(r, ops, Unread(d));
    ClearedGroup(d, ops);
    var q := RecordGroup(r, ops).0;
    RelRoot(RecordGroup(c, ops).0, StepAll(r.deck, LeftOver(c), ops));
    SweptLive(q.doc, Unread(d));
    RootSwept(q.doc, Unread(d));
  }

  lemma RelRoot(r: Rep, a: Past)
    requires Rel(r, a)
    ensures LiveKids(r.doc, ROOT) == Named(r.nodes, SlideIdsOf(r.deck))
  {
    hide WellFormed, SlidesRel, PastRel, NodesOk;
  }

  lemma RootSwept(d: Loro, gone: set<TreeID>)
    requires Idle(d, gone)
    ensures LiveKids(Swept(d, gone), ROOT) == LiveKids(d, ROOT)
  {
    hide ReadObject, LiveSet, Swept;
    SweptLive(d, gone);
    SameLive(d, Swept(d, gone), ROOT);
  }

  lemma ReviveOnce(r: Rep, f: Loro, ops: seq<Op>)
    requires ReviveShown(r.doc, r.nodes, r.deck) == f && ReviveShown(f, r.nodes, r.deck) == f
    ensures RecordGroup(r, ops) == RecordGroup(r.(doc := f), ops)
  {
    hide RecordOps, ReviveShown;
  }

  lemma ClearedRevives(d: Loro)
    requires WellFormed(d) && Founded(d) && Children(d, ROOT) != []
    ensures var s := SweptRep(RebuiltRep(d), Unread(d));
            && ReviveShown(s.doc, s.nodes, s.deck) == Cleared(d)
            && ReviveShown(Cleared(d), s.nodes, s.deck) == Cleared(d)
  {
    hide RebuiltRep, LiveKids, WellFormed, Founded, Unread, Swept, Readable, ShownSlides, Rel, Settled, LeftOver, Woken, Whole, Idle, Get, IsDeleted, SetDeleted, Rebuilt, ReviveShown;
    RebuiltRel(d);
    var c := RebuiltRep(d).(doc := Cleared(d));
    RevivedAlready(c, LeftOver(c));
    SweptReadable(d);
    UnreadIdle(d);
    SweptRebuilt(d, Unread(d));
    RebuiltOf(d);
    RebuiltOf(Swept(d, Unread(d)));
    RevivedIsWoken(Swept(d, Unread(d)));
  }

  lemma ClearedGroup(d: Loro, ops: seq<Op>)
    requires WellFormed(d) && Founded(d) && Children(d, ROOT) != []
    ensures RecordGroup(SweptRep(RebuiltRep(d), Unread(d)), ops) == RecordGroup(RebuiltRep(d).(doc := Cleared(d)), ops)
  {
    hide RebuiltRep, LiveKids, WellFormed, Founded, Unread, Swept, Cleared, ReviveShown, RecordGroup;
    ClearedRevives(d);
    ReviveOnce(SweptRep(RebuiltRep(d), Unread(d)), Cleared(d), ops);
  }

  /** Until a group is recorded the replica is as it was; then no matter
      whether its slides were live before. */
  lemma {:induction false} RunWoken(p: Peer, f: Loro, events: seq<Event>)
    requires ReviveShown(p.rep.doc, p.rep.nodes, p.rep.deck) == f && ReviveShown(f, p.rep.nodes, p.rep.deck) == f
    ensures var q, t := MirroredRun(p, events), MirroredRun(p.(rep := p.rep.(doc := f)), events);
            q.session == t.session && (q.rep == t.rep || (q.rep == p.rep && t.rep == p.rep.(doc := f)))
    decreases |events|
  {
    hide RecordGroup, ReviveShown, Do, ApplyAll;
    if events != [] {
      var u := p.(rep := p.rep.(doc := f));
      var q, t := Mirrored(p, events[0]), Mirrored(u, events[0]);
      match events[0] {
        case EditEvent(ops, _) => ReviveOnce(p.rep, f, ops);
        case UndoEvent =>
          if p.session.steps.undo != [] {
            ReviveOnce(p.rep, f, Last(p.session.steps.undo));
          }
        case RedoEvent =>
          if p.session.steps.redo != [] {
            ReviveOnce(p.rep, f, Last(p.session.steps.redo));
          }
      }
      if q != t {
        RunWoken(q, f, events[1..]);
      }
    }
  }

  /** After a merge and a rebuild the story goes on, whatever the merge has
      left: any run recorded from there leaves a document that shows exactly
      the deck. */
  lemma RebuiltRunShows(d: Loro, masters: seq<Master>, events: seq<Event>)
    requires WellFormed(d) && Founded(d) && Children(d, ROOT) != []
    requires FairRun(Session(NO_STEPS, Doc(Rebuilt(d), masters)), Rebuilt(d), events)
    ensures var q := MirroredRun(Peer(Session(NO_STEPS, Doc(Rebuilt(d), masters)), RebuiltRep(d)), events);
            Erase(q.rep.deck) == Erase(q.session.doc.slides) && SameDeck(Rebuilt(q.rep.doc), q.session.doc.slides)
  {
    hide Rel, FairRun, SameDeck, Rebuilt, MirroredRun, LiveKids, WellFormed, Founded, Settled, LeftOver, Cleared, Swept, Unread, Idle, ReadNodes, ReviveShown;
    RebuiltRel(d);
    var doc := Doc(Rebuilt(d), masters);
    var c := RebuiltRep(d).(doc := Cleared(d));
    var p := Peer(Session(NO_STEPS, doc), c);
    DeckValid(c, LeftOver(c));
    StartsOnLine(doc);
    NoSteps(c.deck, LeftOver(c));
    FollowedTrails(p, LeftOver(c));
    RunShows(p, LeftOver(c), events);
    var s := p.(rep := RebuiltRep(d));
    RunAside(s, events, Unread(d));
    ClearedRevives(d);
    var u := SweptPeer(s, Unread(d));
    RunWoken(u, Cleared(d), events);
    SweptRebuilt(MirroredRun(s, events).rep.doc, Unread(d));
    UnreadIdle(d);
    SweptRebuilt(d, Unread(d));
  }
}
