/** Positions in lists: inserting, taking out, and finding. */
module Sequences {
  import opened Engine

  function Insert<T>(s: seq<T>, at: nat, x: T): seq<T>
    requires at <= |s|
  {
    s[..at] + [x] + s[at..]
  }

  function Remove<T>(s: seq<T>, at: nat): seq<T>
    requires at < |s|
  {
    s[..at] + s[at + 1..]
  }

  /** The first position of `x`. */
  function IndexOf(s: seq<nat>, x: nat): (r: Option<nat>)
    ensures r.Some? ==> r.value < |s| && s[r.value] == x && x !in s[..r.value]
    ensures r.None? <==> x !in s
  {
    if s == [] then None
    else if s[0] == x then Some(0)
    else
      var rest := IndexOf(s[1..], x);
      if rest.Some? then Some(rest.value + 1) else None
  }

  predicate EndsWith(s: string, p: string) {
    |p| <= |s| && s[|s| - |p|..] == p
  }

  ghost predicate NoDup<T>(s: seq<T>) {
    forall i, j :: 0 <= i < j < |s| ==> s[i] != s[j]
  }

  lemma IndexOfUnique(s: seq<nat>, i: nat)
    requires NoDup(s) && i < |s|
    ensures IndexOf(s, s[i]) == Some(i)
  {
    assert forall r :: i < r <= |s| ==> s[i] in s[..r];
  }

  lemma RemoveInsert<T>(s: seq<T>, at: nat, x: T)
    requires at <= |s|
    ensures Remove(Insert(s, at, x), at) == s
  {
  }

  lemma InsertRemove<T>(s: seq<T>, at: nat)
    requires at < |s|
    ensures Insert(Remove(s, at), at, s[at]) == s
  {
  }

  lemma NoDupRemove<T>(s: seq<T>, at: nat)
    requires NoDup(s) && at < |s|
    ensures NoDup(Remove(s, at)) && s[at] !in Remove(s, at)
    ensures forall x :: x in Remove(s, at) <==> x in s && x != s[at]
  {
    var r := Remove(s, at);
    forall i | 0 <= i < |r|
      ensures r[i] == s[if i < at then i else i + 1]
    {
    }
    forall x | x in s && x != s[at]
      ensures x in r
    {
      var i :| 0 <= i < |s| && s[i] == x;
      assert r[if i < at then i else i - 1] == x;
    }
  }

  /** Taking out the only occurrence, and putting it back. */
  lemma RemovedOnce(s: seq<nat>, x: nat)
    requires NoDup(s) && x in s
    ensures var at := IndexOf(s, x).value;
            x !in Remove(s, at) && Insert(Remove(s, at), at, x) == s
  {
    hide Insert, Remove, NoDup;
    NoDupRemove(s, IndexOf(s, x).value);
    InsertRemove(s, IndexOf(s, x).value);
  }

  lemma NoDupInsert<T>(s: seq<T>, at: nat, x: T)
    requires NoDup(s) && at <= |s| && x !in s
    ensures NoDup(Insert(s, at, x))
    ensures forall y :: y in Insert(s, at, x) <==> y in s || y == x
  {
    var r := Insert(s, at, x);
    forall i | 0 <= i < |r| && i != at
      ensures r[i] == s[if i < at then i else i - 1]
    {
    }
    forall y | y in s
      ensures y in r
    {
      var i :| 0 <= i < |s| && s[i] == y;
      assert r[if i < at then i else i + 1] == y;
    }
    assert r[at] == x;
  }

  /** `s` with the element at `from` taken out and put at `to`. */
  function Relocate<T>(s: seq<T>, from: nat, to: nat): (r: seq<T>)
    requires from < |s| && to < |s|
    ensures |r| == |s| && r[to] == s[from]
  {
    Insert(Remove(s, from), to, s[from])
  }

  lemma Moved<T>(s: seq<T>, from: nat, to: nat)
    requires from < |s| && to < |s|
    ensures Relocate(Relocate(s, from, to), to, from) == s
  {
    RemoveInsert(Remove(s, from), to, s[from]);
    InsertRemove(s, from);
  }

  lemma MovedUnique(s: seq<nat>, from: nat, to: nat)
    requires NoDup(s) && from < |s| && to < |s|
    ensures NoDup(Relocate(s, from, to))
    ensures IndexOf(Relocate(s, from, to), s[from]) == Some(to)
    ensures forall x :: x in Relocate(s, from, to) <==> x in s
  {
    NoDupRemove(s, from);
    NoDupInsert(Remove(s, from), to, s[from]);
    IndexOfUnique(Relocate(s, from, to), to);
  }
}
