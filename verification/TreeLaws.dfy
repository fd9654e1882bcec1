/** What the tree primitives do to the live children of a node, though dead
    nodes lie between them. */
module TreeLaws {
  import opened Engine
  import opened Sequences
  import opened Tree
  import opened Replicas

  lemma LiveKidsHas(d: Loro, p: TreeID)
    ensures forall n :: n in LiveKids(d, p) <==> n in Children(d, p) && n in LiveSet(d)
  {
    PickHas(Children(d, p), LiveSet(d));
  }

  lemma LiveKidsNoDup(d: Loro, p: TreeID)
    requires WellFormed(d)
    ensures NoDup(LiveKids(d, p))
  {
    PickNoDup(Children(d, p), LiveSet(d));
  }

  /** A child is under its one parent, and itself live or dead. */
  lemma LiveKidParent(d: Loro, p: TreeID, n: TreeID)
    requires WellFormed(d) && n in LiveKids(d, p)
    ensures n in d.parent && d.parent[n] == p && !IsDeleted(d, n) && n in d.kids
  {
    LiveKidsHas(d, p);
  }

  // ---------------------------------------------------------------- tombstones

  lemma SetDeletedTree(d: Loro, n: TreeID, deleted: bool)
    requires WellFormed(d) && n in d.kids
    ensures WellFormed(SetDeleted(d, n, deleted))
    ensures LiveSet(SetDeleted(d, n, deleted)) == if deleted then LiveSet(d) - {n} else LiveSet(d) + {n}
  {
    var e := SetDeleted(d, n, deleted);
    assert forall m :: m != n ==> (IsDeleted(e, m) <==> IsDeleted(d, m));
  }

  lemma Killed(d: Loro, n: TreeID, p: TreeID)
    requires WellFormed(d) && n in d.kids
    ensures LiveKids(SetDeleted(d, n, true), p) == Taken(LiveKids(d, p), n)
  {
    var e := SetDeleted(d, n, true);
    var kids := Children(d, p);
    SetDeletedTree(d, n, true);
    PickTaken(kids, n, LiveSet(d));
    PickTaken(kids, n, LiveSet(e));
    TakenKeeps(kids, n);
    PickSame(Taken(kids, n), LiveSet(d), LiveSet(e));
  }

  lemma Revived(d: Loro, n: TreeID, p: TreeID)
    requires WellFormed(d) && n in d.kids
    ensures Taken(LiveKids(SetDeleted(d, n, false), p), n) == Taken(LiveKids(d, p), n)
    ensures n !in Children(d, p) ==> LiveKids(SetDeleted(d, n, false), p) == LiveKids(d, p)
  {
    var e := SetDeleted(d, n, false);
    var kids := Children(d, p);
    SetDeletedTree(d, n, false);
    PickTaken(kids, n, LiveSet(d));
    PickTaken(kids, n, LiveSet(e));
    TakenKeeps(kids, n);
    PickSame(Taken(kids, n), LiveSet(d), LiveSet(e));
  }

  // ---------------------------------------------------------------- places

  /** The neighbours position `at` has in `rest`. */
  function Beside(rest: seq<TreeID>, at: nat): (Option<TreeID>, Option<TreeID>)
    requires at <= |rest|
  {
    (if at > 0 then Some(rest[at - 1]) else None, if at < |rest| then Some(rest[at]) else None)
  }

  /** Only the order of `p`'s children has changed. */
  ghost predicate OnlyOrder(d: Loro, e: Loro, p: TreeID) {
    && e.regs == d.regs && e.parent == d.parent && e.kids.Keys == d.kids.Keys
    && (forall q :: q in d.kids && q != p ==> e.kids[q] == d.kids[q])
    && e.next == d.next && e.peer == d.peer && e.clock == d.clock
  }

  lemma MoveToOrder(d: Loro, n: TreeID, p: TreeID, index: nat)
    requires WellFormed(d) && n in d.parent && d.parent[n] == p && p in d.kids
    requires index <= |Taken(d.kids[p], n)|
    ensures var e := MoveTo(d, n, p, index);
            WellFormed(e) && OnlyOrder(d, e, p) && e.kids[p] == Insert(Taken(d.kids[p], n), index, n)
    ensures LiveSet(MoveTo(d, n, p, index)) == LiveSet(d)
  {
    hide Taken, Insert, WellFormed;
    assert Children(TakenOut(d, n), p) == Taken(d.kids[p], n);
    MoveToWellFormed(d, n, p, index);
    var e := MoveTo(d, n, p, index);
    assert e.parent == d.parent;
    assert forall m :: IsDeleted(e, m) <==> IsDeleted(d, m);
  }

  /** The live children of `p` once `n` is put at `index` among the rest. */
  lemma MovedLive(d: Loro, n: TreeID, p: TreeID, index: nat)
    requires WellFormed(d) && n in d.parent && d.parent[n] == p && p in d.kids
    requires index <= |Taken(d.kids[p], n)|
    ensures var e := MoveTo(d, n, p, index);
            WellFormed(e) && OnlyOrder(d, e, p) && LiveSet(e) == LiveSet(d)
            && LiveKids(e, p) == Pick(Insert(Taken(d.kids[p], n), index, n), LiveSet(d))
  {
    MoveToOrder(d, n, p, index);
  }

  /** The children of a node, each once, in the tree, under it. */
  ghost predicate Kids(d: Loro, p: TreeID) {
    && p in d.kids && NoDup(d.kids[p])
    && forall n :: n in d.kids[p] ==> n in d.parent && d.parent[n] == p && n in d.kids
  }

  lemma KidFacts(d: Loro, p: TreeID)
    requires WellFormed(d) && p in d.kids
    ensures Kids(d, p)
  {
  }

  /** Where `Place` puts `n` among the other children of `p`. */
  function Slot(d: Loro, n: TreeID, p: TreeID, at: nat): (index: nat)
    requires p in d.kids && at <= |Pick(Taken(d.kids[p], n), LiveSet(d))|
    ensures index <= |Taken(d.kids[p], n)|
  {
    var out := Taken(d.kids[p], n);
    var rest := Pick(out, LiveSet(d));
    if at > 0 then (var i := Position(out, rest[at - 1]); if i.Some? then i.value + 1 else 0)
    else if rest != [] then (var i := Position(out, rest[0]); if i.Some? then i.value else 0)
    else 0
  }

  lemma SlotCounts(d: Loro, n: TreeID, p: TreeID, at: nat)
    requires Kids(d, p) && n in LiveSet(d) && at <= |Pick(Taken(d.kids[p], n), LiveSet(d))|
    ensures var out := Taken(d.kids[p], n);
            Pick(Insert(out, Slot(d, n, p, at), n), LiveSet(d)) == Insert(Pick(out, LiveSet(d)), at, n)
  {
    var out := Taken(d.kids[p], n);
    var rest := Pick(out, LiveSet(d));
    TakenKeeps(d.kids[p], n);
    if at > 0 {
      PickInsertedAfter(out, n, at, LiveSet(d));
    } else if rest != [] {
      PickInsertedBefore(out, n, LiveSet(d));
      assert Insert(rest, 0, n) == [n] + rest;
    } else {
      PickInsertedAnywhere(out, n, 0, LiveSet(d));
      assert Insert(rest, 0, n) == [n];
    }
  }

  lemma OtherKid(d: Loro, n: TreeID, p: TreeID, k: nat)
    requires Kids(d, p) && k < |Pick(Taken(d.kids[p], n), LiveSet(d))|
    ensures var m := Pick(Taken(d.kids[p], n), LiveSet(d))[k];
            InTree(d, m) && d.parent[m] == p && m in Taken(d.kids[p], n)
  {
    TakenKeeps(d.kids[p], n);
    PickHas(Taken(d.kids[p], n), LiveSet(d));
    assert Pick(Taken(d.kids[p], n), LiveSet(d))[k] in Pick(Taken(d.kids[p], n), LiveSet(d));
  }

  lemma PlaceIsMove(d: Loro, n: TreeID, p: TreeID, at: nat)
    requires Kids(d, p) && InTree(d, n) && d.parent[n] == p
    requires var rest := Pick(Taken(d.kids[p], n), LiveSet(d)); at <= |rest| && rest != []
    ensures var (prev, next) := Beside(Pick(Taken(d.kids[p], n), LiveSet(d)), at);
            Place(d, n, p, prev, next) == MoveTo(d, n, p, Slot(d, n, p, at))
  {
    var rest := Pick(Taken(d.kids[p], n), LiveSet(d));
    assert Children(TakenOut(d, n), p) == Taken(d.kids[p], n);
    if at > 0 {
      OtherKid(d, n, p, at - 1);
    }
    if at < |rest| {
      OtherKid(d, n, p, at);
    }
  }

  /** Moving a live node between the neighbours of position `at` puts it at
      `at` among the live children. */
  lemma Placed(d: Loro, n: TreeID, p: TreeID, at: nat)
    requires WellFormed(d) && n in d.parent && d.parent[n] == p && p in d.kids && n in LiveSet(d)
    requires at <= |Taken(LiveKids(d, p), n)|
    ensures var rest := Taken(LiveKids(d, p), n);
            var (prev, next) := Beside(rest, at);
            var e := Place(d, n, p, prev, next);
            WellFormed(e) && OnlyOrder(d, e, p) && LiveKids(e, p) == Insert(rest, at, n) && LiveSet(e) == LiveSet(d)
  {
    var rest := Taken(LiveKids(d, p), n);
    KidFacts(d, p);
    PickTaken(d.kids[p], n, LiveSet(d));
    if rest != [] {
      PlaceIsMove(d, n, p, at);
      SlotCounts(d, n, p, at);
      MovedLive(d, n, p, Slot(d, n, p, at));
    } else {
      LiveKidsHas(d, p);
      AloneLive(LiveKids(d, p), n);
    }
  }

  lemma AloneLive(s: seq<TreeID>, n: TreeID)
    requires n in s && Taken(s, n) == []
    ensures s == [n] && Insert([], 0, n) == [n]
  {
    assert |s| == 1;
  }

  /** `e` is `d` with a new live node `n` under `p`. */
  ghost predicate Grown(d: Loro, e: Loro, n: TreeID, p: TreeID) {
    && WellFormed(e) && e.regs == d.regs && n !in d.kids && n !in d.parent && e.parent == d.parent[n := p]
    && e.kids.Keys == d.kids.Keys + {n} && e.kids[n] == [] && p in d.kids
    && (forall q :: q in d.kids && q != p ==> e.kids[q] == d.kids[q])
    && LiveSet(e) == LiveSet(d) + {n}
  }

  lemma CreatedLive(d: Loro, p: TreeID, index: nat)
    requires WellFormed(d) && p in d.kids && index <= |d.kids[p]|
    ensures var (e, n) := CreateAt(d, p, index); n !in d.kids && LiveSet(e) == LiveSet(d) + {n}
  {
    var (e, n) := CreateAt(d, p, index);
    assert n !in d.kids;
    assert (n, Deleted) !in d.regs;
    assert e.kids.Keys == d.kids.Keys + {n};
    assert forall m :: IsDeleted(e, m) <==> IsDeleted(d, m);
  }

  lemma CreatedAt(d: Loro, p: TreeID, index: nat)
    requires WellFormed(d) && p in d.kids && index <= |d.kids[p]|
    ensures var (e, n) := CreateAt(d, p, index);
            Grown(d, e, n, p) && n !in d.kids[p] && LiveKids(e, p) == Pick(Insert(d.kids[p], index, n), LiveSet(d) + {n})
  {
    CreateAtWellFormed(d, p, index);
    CreatedLive(d, p, index);
    CreatedElsewhere(d, p, index);
  }

  lemma CreatedElsewhere(d: Loro, p: TreeID, index: nat)
    requires WellFormed(d) && p in d.kids && index <= |d.kids[p]| && CreateAt(d, p, index).1 !in d.kids
    ensures var (e, n) := CreateAt(d, p, index);
            && e.regs == d.regs && n !in d.parent && e.parent == d.parent[n := p] && n !in d.kids[p]
            && e.kids.Keys == d.kids.Keys + {n} && e.kids[n] == [] && e.kids[p] == Insert(d.kids[p], index, n)
            && (forall q :: q in d.kids && q != p ==> e.kids[q] == d.kids[q])
  {
  }

  /** A new node made between the neighbours of position `at` stands at `at`. */
  lemma Created(d: Loro, p: TreeID, at: nat)
    requires WellFormed(d) && p in d.kids && at <= |LiveKids(d, p)|
    ensures var (prev, next) := Beside(LiveKids(d, p), at);
            var (e, n) := Create(d, p, prev, next);
            Grown(d, e, n, p) && LiveKids(e, p) == Insert(LiveKids(d, p), at, n)
  {
    var index := NewSlot(d, p, at);
    KidFacts(d, p);
    NewSlotCounts(d, p, at, TreeID(d.peer, d.next));
    CreatedAt(d, p, index);
    CreateIs(d, p, at);
  }

  /** Where `Create` puts a new node among the children of `p`. */
  function NewSlot(d: Loro, p: TreeID, at: nat): (index: nat)
    requires p in d.kids && at <= |LiveKids(d, p)|
    ensures index <= |d.kids[p]|
  {
    var l := LiveKids(d, p);
    if at > 0 then (var i := Position(d.kids[p], l[at - 1]); if i.Some? then i.value + 1 else |d.kids[p]|)
    else if l != [] then (var i := Position(d.kids[p], l[0]); if i.Some? then i.value else 0)
    else |d.kids[p]|
  }

  lemma CreateIs(d: Loro, p: TreeID, at: nat)
    requires p in d.kids && at <= |LiveKids(d, p)|
    ensures var (prev, next) := Beside(LiveKids(d, p), at);
            Create(d, p, prev, next) == CreateAt(d, p, NewSlot(d, p, at))
  {
  }

  lemma NewSlotCounts(d: Loro, p: TreeID, at: nat, n: TreeID)
    requires Kids(d, p) && n !in d.kids && at <= |LiveKids(d, p)|
    ensures Pick(Insert(d.kids[p], NewSlot(d, p, at), n), LiveSet(d) + {n}) == Insert(LiveKids(d, p), at, n)
  {
    var l := LiveKids(d, p);
    var kids := d.kids[p];
    var live := LiveSet(d) + {n};
    assert n !in kids;
    PickSame(kids, LiveSet(d), live);
    if at > 0 {
      PickInsertedAfter(kids, n, at, live);
    } else if l != [] {
      PickInsertedBefore(kids, n, live);
      assert Insert(l, 0, n) == [n] + l;
    } else {
      PickInsertedAnywhere(kids, n, |kids|, live);
      assert Insert(l, 0, n) == [n];
    }
  }

  /** With the same children and tombstones, the live children are the same. */
  lemma SameLive(d: Loro, e: Loro, q: TreeID)
    requires Children(e, q) == Children(d, q)
    requires forall m :: m in Children(d, q) ==> (m in LiveSet(e) <==> m in LiveSet(d))
    ensures LiveKids(e, q) == LiveKids(d, q)
  {
    PickSame(Children(d, q), LiveSet(d), LiveSet(e));
  }
}
