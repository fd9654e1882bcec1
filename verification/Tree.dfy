/** A movable ordered tree with last-writer-wins registers on its nodes: what
    the replica asks of its document. */
module Tree {
  import opened Engine
  import opened Sequences

  /** A node, named by the peer that made it and that peer's count. */
  datatype TreeID = TreeID(peer: nat, count: nat)

  const ROOT := TreeID(0, 0)

  /** The fields of every kind of object, by name. */
  datatype Field =
    FBody | FChart | FCrop | FH | FKind | FPath | FR | FRotation | FRuns | FStyle | FTable | FText | FW | FX | FY

  datatype Key =
    | Deleted | TitleKey | Background | Picture | Notes | MasterId | TransitionKey | LayoutId | Hidden | Builds
    | Kind | FieldKey(field: Field)

  /** A build as the document stores it: its object's node. */
  datatype StoredBuild = StoredBuild(node: TreeID, effect: BuildEffect, out: bool)

  datatype ObjectKind = ATextBox | ACircle | ARect | APreset | AnImage | ATable | AChart

  datatype Value =
    | VKind(kind: ObjectKind)
    | VBool(b: bool)
    | VText(s: string)
    | VTextOpt(so: Option<string>)
    | VId(id: Option<nat>)
    | VTransition(t: Transition)
    | VBuilds(builds: seq<StoredBuild>)
    | VReal(r: real)
    | VRuns(runs: seq<TextRun>)
    | VBody(body: TextBody)

  /** A register's value (none: removed) and when, and by whom, it was written. */
  datatype Reg = Reg(value: Option<Value>, clock: nat, peer: nat)

  datatype Loro = Loro(
    parent: map<TreeID, TreeID>,
    kids: map<TreeID, seq<TreeID>>,
    regs: map<(TreeID, Key), Reg>,
    clock: nat,
    peer: nat,
    next: nat)

  // ---------------------------------------------------------------- registers

  function Get(d: Loro, n: TreeID, k: Key): Option<Value> {
    if (n, k) in d.regs then d.regs[(n, k)].value else None
  }

  /** Set a register, unless it already holds that. */
  function Put(d: Loro, n: TreeID, k: Key, v: Option<Value>): (r: Loro)
    ensures Get(r, n, k) == v
    ensures forall m, l :: (m, l) != (n, k) ==> Get(r, m, l) == Get(d, m, l)
    ensures r.kids == d.kids && r.parent == d.parent && r.next == d.next && r.peer == d.peer
  {
    if Get(d, n, k) == v then d
    else d.(regs := d.regs[(n, k) := Reg(v, d.clock + 1, d.peer)], clock := d.clock + 1)
  }

  predicate IsDeleted(d: Loro, n: TreeID) {
    Get(d, n, Deleted) == Some(VBool(true))
  }

  function SetDeleted(d: Loro, n: TreeID, deleted: bool): (r: Loro)
    ensures IsDeleted(r, n) == deleted
    ensures forall m, l :: (m, l) != (n, Deleted) ==> Get(r, m, l) == Get(d, m, l)
    ensures r.kids == d.kids && r.parent == d.parent && r.next == d.next && r.peer == d.peer
  {
    if IsDeleted(d, n) == deleted then d else Put(d, n, Deleted, Some(VBool(deleted)))
  }

  // ---------------------------------------------------------------- the ordered tree

  function Children(d: Loro, n: TreeID): seq<TreeID> {
    if n in d.kids then d.kids[n] else []
  }

  /** The children of each node, each once, each under its one parent. */
  ghost predicate WellFormed(d: Loro) {
    && ROOT in d.kids && ROOT !in d.parent
    && (forall n :: n in d.parent ==> n in d.kids && d.parent[n] in d.kids)
    && (forall p :: p in d.kids ==> NoDup(d.kids[p]))
    && (forall p, n :: p in d.kids ==> (n in d.kids[p] <==> n in d.parent && d.parent[n] == p))
    && (forall n :: n in d.kids && n.peer == d.peer ==> n.count < d.next)
    && (forall n, k :: (n, k) in d.regs ==> n in d.kids)
  }

  function Position(s: seq<TreeID>, n: TreeID): (r: Option<nat>)
    ensures r.Some? ==> r.value < |s| && s[r.value] == n && n !in s[..r.value]
    ensures r.None? <==> n !in s
  {
    if s == [] then None
    else if s[0] == n then Some(0)
    else
      var rest := Position(s[1..], n);
      if rest.Some? then Some(rest.value + 1) else None
  }

  function Taken(s: seq<TreeID>, n: TreeID): seq<TreeID> {
    var at := Position(s, n);
    if at.None? then s else Remove(s, at.value)
  }

  /** A new node under `p`, at `index` among its children. */
  function CreateAt(d: Loro, p: TreeID, index: nat): (Loro, TreeID)
    requires p in d.kids && index <= |d.kids[p]|
  {
    var n := TreeID(d.peer, d.next);
    (d.(parent := d.parent[n := p], kids := d.kids[n := []][p := Insert(d.kids[p], index, n)], next := d.next + 1), n)
  }

  /** Node `n` taken from where it is and put under `p`, after `index` of the
      children it then has. */
  function MoveTo(d: Loro, n: TreeID, p: TreeID, index: nat): Loro
    requires n in d.parent && d.parent[n] in d.kids && p in d.kids
    requires index <= |Children(TakenOut(d, n), p)|
  {
    var out := TakenOut(d, n);
    out.(parent := out.parent[n := p], kids := out.kids[p := Insert(out.kids[p], index, n)])
  }

  function TakenOut(d: Loro, n: TreeID): (r: Loro)
    requires n in d.parent && d.parent[n] in d.kids
    ensures r.kids.Keys == d.kids.Keys
  {
    var from := d.parent[n];
    d.(kids := d.kids[from := Taken(d.kids[from], n)])
  }

  /** `mov_after`: right after its sibling-to-be `prev`. */
  function MovAfter(d: Loro, n: TreeID, prev: TreeID): Loro
    requires n in d.parent && d.parent[n] in d.kids && prev in d.parent && d.parent[prev] in d.kids
  {
    var p := d.parent[prev];
    var at := Position(Children(TakenOut(d, n), p), prev);
    MoveTo(d, n, p, if at.Some? then at.value + 1 else 0)
  }

  /** `mov_before`: right before it. */
  function MovBefore(d: Loro, n: TreeID, next: TreeID): Loro
    requires n in d.parent && d.parent[n] in d.kids && next in d.parent && d.parent[next] in d.kids
  {
    var p := d.parent[next];
    var at := Position(Children(TakenOut(d, n), p), next);
    MoveTo(d, n, p, if at.Some? then at.value else 0)
  }

  /** `mov`: last under `p`. */
  function Mov(d: Loro, n: TreeID, p: TreeID): Loro
    requires n in d.parent && d.parent[n] in d.kids && p in d.kids
  {
    MoveTo(d, n, p, |Children(TakenOut(d, n), p)|)
  }

  lemma TakenKeeps(s: seq<TreeID>, n: TreeID)
    requires NoDup(s)
    ensures NoDup(Taken(s, n)) && n !in Taken(s, n)
    ensures forall m :: m in Taken(s, n) <==> m in s && m != n
  {
    if n in s {
      NoDupRemove(s, Position(s, n).value);
    }
  }

  lemma CreateAtWellFormed(d: Loro, p: TreeID, index: nat)
    requires WellFormed(d) && p in d.kids && index <= |d.kids[p]|
    ensures WellFormed(CreateAt(d, p, index).0)
  {
    var (r, n) := CreateAt(d, p, index);
    assert n !in d.kids && n !in d.parent && n !in d.kids[p];
    NoDupInsert(d.kids[p], index, n);
    assert r.kids[n] == [];
    forall q, m | q in r.kids
      ensures m in r.kids[q] <==> m in r.parent && r.parent[m] == q
    {
      if q != n && q != p {
        assert r.kids[q] == d.kids[q];
      }
    }
  }

  /** A moved node is its new parent's child, and no other's. */
  lemma KidsMoved(d: Loro, n: TreeID, p: TreeID, index: nat, q: TreeID)
    requires WellFormed(d) && n in d.parent && d.parent[n] in d.kids && p in d.kids && q in d.kids
    requires index <= |Children(TakenOut(d, n), p)|
    ensures var kids := MoveTo(d, n, p, index).kids;
            q in kids && NoDup(kids[q]) && forall m :: m in kids[q] <==> if m == n then q == p else m in d.kids[q]
  {
    hide Taken, Insert, NoDup;
    var from := d.parent[n];
    var out := TakenOut(d, n);
    TakenKeeps(d.kids[from], n);
    assert n !in out.kids[q] && NoDup(out.kids[q]);
    if q == p {
      NoDupInsert(out.kids[p], index, n);
    }
  }

  lemma MoveToWellFormed(d: Loro, n: TreeID, p: TreeID, index: nat)
    requires WellFormed(d) && n in d.parent && d.parent[n] in d.kids && p in d.kids
    requires index <= |Children(TakenOut(d, n), p)|
    ensures WellFormed(MoveTo(d, n, p, index))
  {
    hide Taken, Insert, NoDup;
    var r := MoveTo(d, n, p, index);
    forall q | q in r.kids
      ensures NoDup(r.kids[q]) && forall m :: m in r.kids[q] <==> m in r.parent && r.parent[m] == q
    {
      KidsMoved(d, n, p, index, q);
    }
  }

  // ---------------------------------------------------------------- the children that count

  /** The nodes of `s` in `keep`, in order. */
  function Pick(s: seq<TreeID>, keep: set<TreeID>): seq<TreeID> {
    if s == [] then []
    else if s[0] in keep then [s[0]] + Pick(s[1..], keep)
    else Pick(s[1..], keep)
  }

  lemma {:induction false} PickHas(s: seq<TreeID>, keep: set<TreeID>)
    ensures forall n :: n in Pick(s, keep) <==> n in s && n in keep
  {
    if s != [] {
      PickHas(s[1..], keep);
      assert forall n :: n in s <==> n == s[0] || n in s[1..];
    }
  }

  lemma {:induction false} PickJoin(a: seq<TreeID>, b: seq<TreeID>, keep: set<TreeID>)
    ensures Pick(a + b, keep) == Pick(a, keep) + Pick(b, keep)
  {
    if a == [] {
      assert a + b == b;
    } else {
      PickJoin(a[1..], b, keep);
      assert (a + b)[0] == a[0] && (a + b)[1..] == a[1..] + b;
      var p, q := Pick(a[1..], keep), Pick(b, keep);
      assert [a[0]] + (p + q) == ([a[0]] + p) + q;
    }
  }

  lemma PickAround(a: seq<TreeID>, m: seq<TreeID>, b: seq<TreeID>, keep: set<TreeID>)
    ensures Pick(a + (m + b), keep) == Pick(a, keep) + (Pick(m, keep) + Pick(b, keep))
  {
    PickJoin(a, m + b, keep);
    PickJoin(m, b, keep);
  }

  lemma FirstPicked(a: seq<TreeID>, b: seq<TreeID>, keep: set<TreeID>)
    ensures Pick(a, keep) == [] || (Pick(a + b, keep) != [] && Pick(a + b, keep)[0] in a)
  {
    PickJoin(a, b, keep);
    PickHas(a, keep);
  }

  lemma {:induction false} PickNoDup(s: seq<TreeID>, keep: set<TreeID>)
    requires NoDup(s)
    ensures NoDup(Pick(s, keep))
  {
    if s != [] {
      PickNoDup(s[1..], keep);
      PickHas(s[1..], keep);
      assert s[0] !in s[1..];
    }
  }

  lemma {:induction false} PickSame(s: seq<TreeID>, a: set<TreeID>, b: set<TreeID>)
    requires forall n :: n in s ==> (n in a <==> n in b)
    ensures Pick(s, a) == Pick(s, b)
  {
    if s != [] {
      assert s[0] in s;
      PickSame(s[1..], a, b);
    }
  }

  /** The nodes that count, before and after the one at `at`. */
  lemma PickSplit(s: seq<TreeID>, at: nat, keep: set<TreeID>)
    requires at < |s|
    ensures Pick(s, keep) == Pick(s[..at], keep) + ((if s[at] in keep then [s[at]] else []) + Pick(s[at + 1..], keep))
    ensures Pick(Remove(s, at), keep) == Pick(s[..at], keep) + Pick(s[at + 1..], keep)
  {
    PickAround(s[..at], [s[at]], s[at + 1..], keep);
    PickJoin(s[..at], s[at + 1..], keep);
    assert s == s[..at] + ([s[at]] + s[at + 1..]);
    assert Pick([s[at]], keep) == if s[at] in keep then [s[at]] else [];
  }

  lemma TakenMiddle(p: seq<TreeID>, n: TreeID, q: seq<TreeID>)
    requires n !in p
    ensures Taken(p + ([n] + q), n) == p + q
  {
    var s := p + ([n] + q);
    assert s[|p|] == n && s[..|p|] == p;
    PositionAt(s, |p|);
    assert s[|p| + 1..] == q;
  }

  lemma PickTaken(s: seq<TreeID>, n: TreeID, keep: set<TreeID>)
    requires NoDup(s)
    ensures Pick(Taken(s, n), keep) == Taken(Pick(s, keep), n)
    ensures n !in keep ==> Pick(Taken(s, n), keep) == Pick(s, keep)
  {
    hide Pick, NoDup;
    PickHas(s, keep);
    if n in s {
      var at := Position(s, n).value;
      PickSplit(s, at, keep);
      var p, q := Pick(s[..at], keep), Pick(s[at + 1..], keep);
      if n in keep {
        PickHas(s[..at], keep);
        TakenMiddle(p, n, q);
      } else {
        assert [] + q == q;
      }
    }
  }

  lemma PositionAt(s: seq<TreeID>, at: nat)
    requires at < |s| && s[at] !in s[..at]
    ensures Position(s, s[at]) == Some(at)
  {
    var r := Position(s, s[at]);
    assert r.Some?;
    assert forall i :: 0 <= i < at ==> s[..at][i] == s[i];
    assert forall i :: at < i <= |s| ==> s[at] in s[..i];
  }

  /** A node put right after the `at`-th that counts stands after it among
      those that count, whatever else lies between. */
  lemma PickInsertedAfter(s: seq<TreeID>, n: TreeID, at: nat, keep: set<TreeID>)
    requires NoDup(s) && n !in s && n in keep && 0 < at <= |Pick(s, keep)|
    ensures var i := Position(s, Pick(s, keep)[at - 1]); i.Some? && Pick(Insert(s, i.value + 1, n), keep) == Insert(Pick(s, keep), at, n)
  {
    var l := Pick(s, keep);
    var prev := l[at - 1];
    PickHas(s, keep);
    PickNoDup(s, keep);
    assert prev in l;
    var i := Position(s, prev).value;
    var a, b := s[..i], s[i + 1..];
    assert s == a + ([prev] + b);
    PickAround(a, [prev], b, keep);
    PickAround(a, [prev, n], b, keep);
    var p, q := Pick(a, keep), Pick(b, keep);
    PickJoin([prev], [n], keep);
    assert Pick([prev], keep) == [prev] && Pick([n], keep) == [n] && [prev] + [n] == [prev, n];
    assert l == p + ([prev] + q);
    assert |p| == at - 1 by {
      assert l[|p|] == l[at - 1];
    }
    assert Insert(s, i + 1, n) == a + ([prev, n] + b);
    assert Insert(l, at, n) == p + ([prev, n] + q);
  }

  /** And right before the first that counts, before them all. */
  lemma PickInsertedBefore(s: seq<TreeID>, n: TreeID, keep: set<TreeID>)
    requires NoDup(s) && n !in s && n in keep && Pick(s, keep) != []
    ensures var i := Position(s, Pick(s, keep)[0]); i.Some? && Pick(Insert(s, i.value, n), keep) == [n] + Pick(s, keep)
  {
    var l := Pick(s, keep);
    var next := l[0];
    PickHas(s, keep);
    assert next in l;
    var i := Position(s, next).value;
    var a, b := s[..i], s[i..];
    assert s == a + b;
    PickJoin(a, b, keep);
    PickHas(a, keep);
    FirstPicked(a, b, keep);
    assert Insert(s, i, n) == a + ([n] + b);
    PickAround(a, [n], b, keep);
    assert Pick([n], keep) == [n];
  }

  lemma PickInsertedAnywhere(s: seq<TreeID>, n: TreeID, at: nat, keep: set<TreeID>)
    requires at <= |s| && Pick(s, keep) == [] && n in keep
    ensures Pick(Insert(s, at, n), keep) == [n]
  {
    var a, b := s[..at], s[at..];
    assert s == a + b && Insert(s, at, n) == a + ([n] + b);
    PickJoin(a, b, keep);
    PickAround(a, [n], b, keep);
  }
}
