/** A slide's boxes put on a layout's places: by source key first, then by
    role; a box added for each place left over. */
module Layouts {
  import opened Engine
  import opened Sequences

  // ---------------------------------------------------------------- which place a box takes

  /** The role a box fills and the source placeholder it was read from. */
  function RoleKey(o: SlideObject): Option<(Placeholder, Option<PlaceholderKey>)> {
    match o
    case TextBox(_, _, _, _, _, _, _, body) =>
      if body.placeholder.Some? then Some((body.placeholder.value, body.key)) else None
    case _ => None
  }

  /** How well place `p` matches a source key: 0, type and index; 1, type. */
  function Score(p: LayoutPlace, key: Option<PlaceholderKey>): (q: Option<nat>)
    ensures q.Some? ==> q.value <= 1
  {
    if key.None? || key.value.ty == "" || key.value.ty != p.sourceTy then None
    else if key.value.idx.Some? && key.value.idx == p.sourceIdx then Some(0)
    else Some(1)
  }

  /** Of the places from `i` on not used: the best match of `key`, the first of equals. */
  function BestFrom(places: seq<LayoutPlace>, used: seq<bool>, key: Option<PlaceholderKey>, i: nat, best: Option<(nat, nat)>): (r: Option<(nat, nat)>)
    requires |used| == |places| && i <= |places|
    decreases |places| - i
  {
    if i == |places| then best
    else
      var q := Score(places[i], key);
      var better := !used[i] && q.Some? && (best.None? || q.value < best.value.0);
      BestFrom(places, used, key, i + 1, if better then Some((q.value, i)) else best)
  }

  /** The first place from `i` on not used whose role is `role`. */
  function RoleFrom(places: seq<LayoutPlace>, used: seq<bool>, role: Placeholder, i: nat): (r: Option<nat>)
    requires |used| == |places| && i <= |places|
    ensures r.Some? ==> i <= r.value < |places| && !used[r.value] && places[r.value].role == role
    ensures r.Some? ==> forall k :: i <= k < r.value ==> used[k] || places[k].role != role
    ensures r.None? ==> forall k :: i <= k < |places| ==> used[k] || places[k].role != role
    decreases |places| - i
  {
    if i == |places| then None
    else if !used[i] && places[i].role == role then Some(i)
    else RoleFrom(places, used, role, i + 1)
  }

  function PlaceFor(o: SlideObject, places: seq<LayoutPlace>, used: seq<bool>): Option<nat>
    requires |used| == |places|
  {
    match RoleKey(o)
    case None => None
    case Some((role, key)) =>
      var best := BestFrom(places, used, key, 0, None);
      if best.Some? then Some(best.value.1) else RoleFrom(places, used, role, 0)
  }

  // ---------------------------------------------------------------- what becomes of the boxes

  /** A placeholder box at its place, or, with none, no longer a placeholder. */
  function Put(o: SlideObject, place: Option<LayoutPlace>): SlideObject {
    if RoleKey(o).None? then o
    else
      match o
      case TextBox(text, x, y, w, h, rotation, runs, body) =>
        if place.Some? then TextBox(text, place.value.x, place.value.y, place.value.w, place.value.h, rotation, runs, body)
        else TextBox(text, x, y, w, h, rotation, runs, body.(placeholder := None))
      case _ => o
  }

  function Empty(p: LayoutPlace): SlideObject {
    TextBox("", p.x, p.y, p.w, p.h, 0.0, [], TextBody([], Some(p.role), None))
  }

  function Mark(used: seq<bool>, place: Option<nat>): (r: seq<bool>)
    ensures |r| == |used|
  {
    if place.Some? && place.value < |used| then used[place.value := true] else used
  }

  function At(places: seq<LayoutPlace>, i: Option<nat>): Option<LayoutPlace> {
    if i.Some? && i.value < |places| then Some(places[i.value]) else None
  }

  /** Each object's place, in order; and the places then used. */
  function Assign(objects: seq<SlideObject>, places: seq<LayoutPlace>, used: seq<bool>): (r: (seq<Option<nat>>, seq<bool>))
    requires |used| == |places|
    ensures |r.0| == |objects| && |r.1| == |used|
    decreases |objects|
  {
    if objects == [] then ([], used)
    else
      var place := PlaceFor(objects[0], places, used);
      var (rest, after) := Assign(objects[1..], places, Mark(used, place));
      ([place] + rest, after)
  }

  function Placed(objects: seq<SlideObject>, places: seq<LayoutPlace>, given: seq<Option<nat>>): (r: seq<SlideObject>)
    requires |given| == |objects|
    ensures |r| == |objects|
  {
    seq(|objects|, k requires 0 <= k < |objects| => Put(objects[k], At(places, given[k])))
  }

  /** The places from `i` on not used. */
  function Unused(used: seq<bool>, i: nat): seq<nat>
    requires i <= |used|
    decreases |used| - i
  {
    if i == |used| then [] else (if used[i] then [] else [i]) + Unused(used, i + 1)
  }

  predicate Below(left: seq<nat>, n: nat) {
    forall k :: 0 <= k < |left| ==> left[k] < n
  }

  function Empties(places: seq<LayoutPlace>, left: seq<nat>): (r: seq<SlideObject>)
    requires Below(left, |places|)
    ensures |r| == |left|
  {
    seq(|left|, k requires 0 <= k < |left| => Empty(places[left[k]]))
  }

  function NoneUsed(n: nat): (r: seq<bool>)
    ensures |r| == n && forall i :: 0 <= i < n ==> !r[i]
  {
    seq(n, _ => false)
  }

  ghost predicate Rising(left: seq<nat>, i: nat) {
    (forall k :: 0 <= k < |left| ==> i <= left[k]) && forall j, k :: 0 <= j < k < |left| ==> left[j] < left[k]
  }

  lemma {:induction false} UnusedIs(used: seq<bool>, i: nat)
    requires i <= |used|
    ensures Below(Unused(used, i), |used|) && Rising(Unused(used, i), i)
    ensures forall k :: 0 <= k < |Unused(used, i)| ==> !used[Unused(used, i)[k]]
    ensures forall x :: i <= x < |used| && !used[x] ==> x in Unused(used, i)
    decreases |used| - i
  {
    if i < |used| {
      UnusedIs(used, i + 1);
    }
  }

  /** The slide's objects on the layout. */
  function Arranged(objects: seq<SlideObject>, places: seq<LayoutPlace>): seq<SlideObject> {
    var (given, used) := Assign(objects, places, NoneUsed(|places|));
    UnusedIs(used, 0);
    Placed(objects, places, given) + Empties(places, Unused(used, 0))
  }

  // ---------------------------------------------------------------- the algorithm

  /** The place for `o` among those not used. */
  method FindPlace(o: SlideObject, places: seq<LayoutPlace>, used: array<bool>) returns (place: Option<nat>)
    requires used.Length == |places|
    ensures place == PlaceFor(o, places, used[..])
  {
    hide Score;
    if RoleKey(o).None? {
      return None;
    }
    var (role, key) := RoleKey(o).value;
    var best: Option<(nat, nat)> := None;
    var i := 0;
    while i < |places|
      invariant 0 <= i <= |places|
      invariant BestFrom(places, used[..], key, i, best) == BestFrom(places, used[..], key, 0, None)
    {
      if !used[i] {
        var q := Score(places[i], key);
        if q.Some? && (best.None? || q.value < best.value.0) {
          best := Some((q.value, i));
        }
      }
      i := i + 1;
    }
    if best.Some? {
      return Some(best.value.1);
    }
    i := 0;
    while i < |places|
      invariant 0 <= i <= |places|
      invariant RoleFrom(places, used[..], role, i) == RoleFrom(places, used[..], role, 0)
    {
      if !used[i] && places[i].role == role {
        return Some(i);
      }
      i := i + 1;
    }
    place := None;
  }

  /** With `done` given to the first `n` objects, the rest get what makes `all`. */
  ghost predicate Continues(objects: seq<SlideObject>, places: seq<LayoutPlace>, used: seq<bool>, n: nat,
                            done: seq<Option<nat>>, all: (seq<Option<nat>>, seq<bool>))
    requires n <= |objects| && |used| == |places|
  {
    var rest := Assign(objects[n..], places, used);
    (done + rest.0, rest.1) == all
  }

  lemma ContinuesMore(objects: seq<SlideObject>, places: seq<LayoutPlace>, used: seq<bool>, n: nat,
                      done: seq<Option<nat>>, all: (seq<Option<nat>>, seq<bool>))
    requires n < |objects| && |used| == |places| && Continues(objects, places, used, n, done, all)
    ensures var place := PlaceFor(objects[n], places, used);
            Continues(objects, places, Mark(used, place), n + 1, done + [place], all)
  {
    hide PlaceFor;
    var place := PlaceFor(objects[n], places, used);
    assert objects[n..][0] == objects[n] && objects[n..][1..] == objects[n + 1..];
    var rest := Assign(objects[n + 1..], places, Mark(used, place)).0;
    assert done + ([place] + rest) == done + [place] + rest;
  }

  lemma ContinuesFirst(objects: seq<SlideObject>, places: seq<LayoutPlace>, none: seq<bool>)
    requires |none| == |places|
    ensures Continues(objects, places, none, 0, [], Assign(objects, places, none))
  {
    hide PlaceFor, Assign;
    assert objects[0..] == objects;
    assert [] + Assign(objects, places, none).0 == Assign(objects, places, none).0;
  }

  lemma ContinuesLast(objects: seq<SlideObject>, places: seq<LayoutPlace>, used: seq<bool>, done: seq<Option<nat>>, all: (seq<Option<nat>>, seq<bool>))
    requires |used| == |places| && Continues(objects, places, used, |objects|, done, all)
    ensures (done, used) == all
  {
    hide PlaceFor;
    assert objects[|objects|..] == [] && done + [] == done;
  }

  /** `arrange`: object by object, marking the places used; then a box for
      each place left. */
  method Arrange(objects: seq<SlideObject>, places: seq<LayoutPlace>) returns (out: seq<SlideObject>)
    ensures out == Arranged(objects, places)
  {
    hide Put, Score, PlaceFor, RoleKey, Empty, Continues, Assign;
    var used := new bool[|places|](_ => false);
    out := [];
    ghost var done: seq<Option<nat>> := [];
    ghost var all := Assign(objects, places, NoneUsed(|places|));
    assert used[..] == NoneUsed(|places|);
    ContinuesFirst(objects, places, used[..]);
    var n := 0;
    while n < |objects|
      invariant 0 <= n <= |objects| && |done| == n && used.Length == |places|
      invariant Continues(objects, places, used[..], n, done, all)
      invariant out == Placed(objects[..n], places, done)
    {
      var o := objects[n];
      var place := FindPlace(o, places, used);
      FreePlace(o, places, used[..]);
      ContinuesMore(objects, places, used[..], n, done, all);
      PlacedMore(objects, places, done, n, place);
      out := out + [Put(o, At(places, place))];
      ghost var before := used[..];
      if place.Some? {
        used[place.value] := true;
      }
      assert used[..] == Mark(before, place);
      done := done + [place];
      n := n + 1;
    }
    assert objects[..n] == objects;
    ContinuesLast(objects, places, used[..], done, all);
    EmptiesAre(places, used[..], 0);
    var more := AddEmpties(places, used[..]);
    out := out + more;
  }

  /** A new box for each place from `i` on not used. */
  function EmptiesFrom(places: seq<LayoutPlace>, used: seq<bool>, i: nat): seq<SlideObject>
    requires |used| == |places| && i <= |places|
    decreases |places| - i
  {
    if i == |places| then [] else (if used[i] then [] else [Empty(places[i])]) + EmptiesFrom(places, used, i + 1)
  }

  lemma {:induction false} EmptiesAre(places: seq<LayoutPlace>, used: seq<bool>, i: nat)
    requires |used| == |places| && i <= |places|
    ensures Below(Unused(used, i), |places|)
    ensures EmptiesFrom(places, used, i) == Empties(places, Unused(used, i))
    decreases |places| - i
  {
    hide Empty, Below, Empties, Rising;
    UnusedIs(used, i);
    if i == |places| {
      NoEmpties(places, Unused(used, i));
    } else {
      EmptiesAre(places, used, i + 1);
      if !used[i] {
        UnusedIs(used, i + 1);
        EmptiesMore(places, i, Unused(used, i + 1));
      } else {
        assert [] + Unused(used, i + 1) == Unused(used, i + 1);
        assert [] + EmptiesFrom(places, used, i + 1) == EmptiesFrom(places, used, i + 1);
      }
    }
  }

  lemma EmptiesMore(places: seq<LayoutPlace>, i: nat, rest: seq<nat>)
    requires i < |places| && Below(rest, |places|)
    ensures Empties(places, [i] + rest) == [Empty(places[i])] + Empties(places, rest)
  {
  }

  method AddEmpties(places: seq<LayoutPlace>, used: seq<bool>) returns (out: seq<SlideObject>)
    requires |used| == |places|
    ensures out == EmptiesFrom(places, used, 0)
  {
    hide Empty;
    out := [];
    var i := 0;
    while i < |places|
      invariant 0 <= i <= |places|
      invariant out + EmptiesFrom(places, used, i) == EmptiesFrom(places, used, 0)
    {
      ghost var rest := EmptiesFrom(places, used, i + 1);
      if !used[i] {
        assert out + ([Empty(places[i])] + rest) == out + [Empty(places[i])] + rest;
        out := out + [Empty(places[i])];
      } else {
        assert [] + rest == rest;
      }
      i := i + 1;
    }
    assert out + [] == out;
  }

  lemma PlacedMore(objects: seq<SlideObject>, places: seq<LayoutPlace>, done: seq<Option<nat>>, n: nat, place: Option<nat>)
    requires |done| == n < |objects|
    ensures Placed(objects[..n + 1], places, done + [place]) == Placed(objects[..n], places, done) + [Put(objects[n], At(places, place))]
  {
  }

  // ---------------------------------------------------------------- each pick

  /** `i` is a free place whose score for `key` is `q`, no free place before
      `end` scores better, and none before it as well. */
  ghost predicate IsBest(places: seq<LayoutPlace>, used: seq<bool>, key: Option<PlaceholderKey>, end: nat, i: nat, q: nat)
    requires |used| == |places| && end <= |places|
  {
    && i < end && !used[i] && Score(places[i], key) == Some(q)
    && forall k :: 0 <= k < end && !used[k] && Score(places[k], key).Some? ==>
         q <= Score(places[k], key).value && (k < i ==> q < Score(places[k], key).value)
  }

  ghost predicate NoMatch(places: seq<LayoutPlace>, used: seq<bool>, key: Option<PlaceholderKey>, end: nat)
    requires |used| == |places| && end <= |places|
  {
    forall k :: 0 <= k < end && !used[k] ==> Score(places[k], key).None?
  }

  lemma {:induction false} BestIs(places: seq<LayoutPlace>, used: seq<bool>, key: Option<PlaceholderKey>, i: nat, best: Option<(nat, nat)>)
    requires |used| == |places| && i <= |places|
    requires best.None? ==> NoMatch(places, used, key, i)
    requires best.Some? ==> IsBest(places, used, key, i, best.value.1, best.value.0)
    ensures var r := BestFrom(places, used, key, i, best);
            if r.None? then NoMatch(places, used, key, |places|) else IsBest(places, used, key, |places|, r.value.1, r.value.0)
    decreases |places| - i
  {
    hide Score;
    if i < |places| {
      var q := Score(places[i], key);
      var better := !used[i] && q.Some? && (best.None? || q.value < best.value.0);
      BestIs(places, used, key, i + 1, if better then Some((q.value, i)) else best);
    }
  }

  /** The ways a place suits a box, closest first: read from the same type and
      the same stated index; from the same type; of the same role. */
  datatype Way = SameIndex | SameType | SameRole

  ghost predicate Suits(p: LayoutPlace, role: Placeholder, key: Option<PlaceholderKey>, way: Way) {
    match way
    case SameIndex => key.Some? && key.value.ty != "" && p.sourceTy == key.value.ty && key.value.idx.Some? && p.sourceIdx == key.value.idx
    case SameType => key.Some? && key.value.ty != "" && p.sourceTy == key.value.ty
    case SameRole => p.role == role
  }

  ghost predicate NoneSuits(places: seq<LayoutPlace>, used: seq<bool>, role: Placeholder, key: Option<PlaceholderKey>, way: Way)
    requires |used| == |places|
  {
    forall k :: 0 <= k < |places| && !used[k] ==> !Suits(places[k], role, key, way)
  }

  /** `i`: the first of the free places that suit. */
  ghost predicate FirstSuits(places: seq<LayoutPlace>, used: seq<bool>, role: Placeholder, key: Option<PlaceholderKey>, way: Way, i: nat)
    requires |used| == |places|
  {
    && i < |places| && !used[i] && Suits(places[i], role, key, way)
    && forall k :: 0 <= k < i && !used[k] ==> !Suits(places[k], role, key, way)
  }

  /** A placeholder box takes the first free place of its source type and
      stated index; if there is none, the first of its source type; if there is
      none, the first of its role; else none. Nothing else takes a place. */
  ghost predicate Takes(o: SlideObject, places: seq<LayoutPlace>, used: seq<bool>, r: Option<nat>)
    requires |used| == |places|
  {
    if !o.TextBox? || o.body.placeholder.None? then r.None?
    else
      var role, key := o.body.placeholder.value, o.body.key;
      if !NoneSuits(places, used, role, key, SameIndex) then r.Some? && FirstSuits(places, used, role, key, SameIndex, r.value)
      else if !NoneSuits(places, used, role, key, SameType) then r.Some? && FirstSuits(places, used, role, key, SameType, r.value)
      else if !NoneSuits(places, used, role, key, SameRole) then r.Some? && FirstSuits(places, used, role, key, SameRole, r.value)
      else r.None?
  }

  lemma ScoreIs(p: LayoutPlace, role: Placeholder, key: Option<PlaceholderKey>)
    ensures Score(p, key) == Some(0) <==> Suits(p, role, key, SameIndex)
    ensures Score(p, key).Some? <==> Suits(p, role, key, SameType)
    ensures Score(p, key).Some? ==> Score(p, key).value <= 1
  {
  }

  lemma BestTakes(places: seq<LayoutPlace>, used: seq<bool>, role: Placeholder, key: Option<PlaceholderKey>, i: nat, q: nat)
    requires |used| == |places| && IsBest(places, used, key, |places|, i, q)
    ensures !NoneSuits(places, used, role, key, SameIndex) <==> q == 0
    ensures !NoneSuits(places, used, role, key, SameType)
    ensures FirstSuits(places, used, role, key, if q == 0 then SameIndex else SameType, i)
  {
    hide Score, Suits;
    forall k | 0 <= k < |places|
      ensures Score(places[k], key) == Some(0) <==> Suits(places[k], role, key, SameIndex)
      ensures Score(places[k], key).Some? <==> Suits(places[k], role, key, SameType)
      ensures Score(places[k], key).Some? ==> Score(places[k], key).value <= 1
    {
      ScoreIs(places[k], role, key);
    }
  }

  lemma NoMatchSuits(places: seq<LayoutPlace>, used: seq<bool>, role: Placeholder, key: Option<PlaceholderKey>)
    requires |used| == |places| && NoMatch(places, used, key, |places|)
    ensures NoneSuits(places, used, role, key, SameIndex) && NoneSuits(places, used, role, key, SameType)
  {
  }

  lemma PlaceForIs(o: SlideObject, places: seq<LayoutPlace>, used: seq<bool>)
    requires |used| == |places|
    ensures Takes(o, places, used, PlaceFor(o, places, used))
  {
    hide Score, BestFrom, NoMatch, IsBest;
    if RoleKey(o).Some? {
      var (role, key) := RoleKey(o).value;
      BestIs(places, used, key, 0, None) by {
        NothingYet(places, used, key);
      }
      var best := BestFrom(places, used, key, 0, None);
      if best.Some? {
        BestTakes(places, used, role, key, best.value.1, best.value.0);
      } else {
        NoMatchSuits(places, used, role, key);
        assert NoneSuits(places, used, role, key, SameRole) <==> RoleFrom(places, used, role, 0).None?;
      }
    }
  }

  lemma NothingYet(places: seq<LayoutPlace>, used: seq<bool>, key: Option<PlaceholderKey>)
    requires |used| == |places|
    ensures NoMatch(places, used, key, 0)
  {
  }

  /** The places the first `k` boxes have taken. */
  ghost predicate TakenBy(given: seq<Option<nat>>, k: nat, was: seq<bool>, used: seq<bool>)
    requires k <= |given| && |used| == |was|
  {
    forall i :: 0 <= i < |used| ==> (used[i] <==> was[i] || Some(i) in given[..k])
  }

  lemma {:induction false} AssignEach(objects: seq<SlideObject>, places: seq<LayoutPlace>, was: seq<bool>, k: nat) returns (used: seq<bool>)
    requires |was| == |places| && k < |objects|
    ensures var given := Assign(objects, places, was).0;
            && |used| == |was| && TakenBy(given, k, was, used)
            && given[k] == PlaceFor(objects[k], places, used)
    decreases |objects|
  {
    hide PlaceFor, Mark;
    used := was;
    if k > 0 {
      var place := PlaceFor(objects[0], places, was);
      FreePlace(objects[0], places, was);
      var mid := Mark(was, place);
      used := AssignEach(objects[1..], places, mid, k - 1);
      TakenMore(place, Assign(objects[1..], places, mid).0, k - 1, was, used);
    }
  }

  lemma TakenMore(place: Option<nat>, rest: seq<Option<nat>>, k: nat, was: seq<bool>, used: seq<bool>)
    requires k < |rest| && |used| == |was| && TakenBy(rest, k, Mark(was, place), used)
    ensures TakenBy([place] + rest, k + 1, was, used)
  {
    var mid := Mark(was, place);
    assert ([place] + rest)[..k + 1] == [place] + rest[..k];
    forall i | 0 <= i < |used|
      ensures used[i] <==> was[i] || Some(i) in ([place] + rest)[..k + 1]
    {
      assert mid[i] <==> was[i] || place == Some(i);
      assert Some(i) in [place] + rest[..k] <==> place == Some(i) || Some(i) in rest[..k];
    }
  }

  /** Box by box: the first free place that suits it best, free being what no
      box before it took. */
  lemma EachTakesItsOwn(objects: seq<SlideObject>, places: seq<LayoutPlace>, k: nat)
    requires k < |objects|
    ensures var seats := Seats(objects, places);
            && |seats| >= |objects|
            && exists used :: |used| == |places| && (forall i :: 0 <= i < |places| ==> (used[i] <==> Some(i) in seats[..k]))
                 && Takes(objects[k], places, used, seats[k])
  {
    hide Assign, PlaceFor, Takes;
    var given := Assign(objects, places, NoneUsed(|places|)).0;
    var used := AssignEach(objects, places, NoneUsed(|places|), k);
    PlaceForIs(objects[k], places, used);
    var seats := Seats(objects, places);
    assert seats[..k] == given[..k] && seats[k] == given[k];
    assert Takes(objects[k], places, used, seats[k]);
  }

  // ---------------------------------------------------------------- every place, one box

  /** What an assignment does to the places: each taken was free, none twice. */
  ghost predicate Fair(given: seq<Option<nat>>, used: seq<bool>, after: seq<bool>) {
    && |after| == |used|
    && (forall k :: 0 <= k < |given| && given[k].Some? ==> given[k].value < |used| && !used[given[k].value] && after[given[k].value])
    && (forall j, k :: 0 <= j < k < |given| && given[j].Some? && given[k].Some? ==> given[j].value != given[k].value)
    && (forall i :: 0 <= i < |used| && used[i] ==> after[i])
    && (forall i :: 0 <= i < |used| && after[i] && !used[i] ==> Some(i) in given)
  }

  lemma {:induction false} AssignFair(objects: seq<SlideObject>, places: seq<LayoutPlace>, used: seq<bool>)
    requires |used| == |places|
    ensures var (given, after) := Assign(objects, places, used); Fair(given, used, after)
    decreases |objects|
  {
    hide PlaceFor, RoleKey;
    if objects != [] {
      var place := PlaceFor(objects[0], places, used);
      FreePlace(objects[0], places, used);
      var mid := Mark(used, place);
      AssignFair(objects[1..], places, mid);
      var (rest, after) := Assign(objects[1..], places, mid);
      FairFirst(place, rest, used, mid, after);
    }
  }

  lemma FreePlace(o: SlideObject, places: seq<LayoutPlace>, used: seq<bool>)
    requires |used| == |places|
    ensures var r := PlaceFor(o, places, used); r.Some? ==> r.value < |used| && !used[r.value]
  {
    PlaceForIs(o, places, used);
  }

  lemma FairFirst(place: Option<nat>, rest: seq<Option<nat>>, used: seq<bool>, mid: seq<bool>, after: seq<bool>)
    requires mid == Mark(used, place) && Fair(rest, mid, after)
    requires place.Some? ==> place.value < |used| && !used[place.value]
    ensures Fair([place] + rest, used, after)
  {
    var given := [place] + rest;
    forall i | 0 <= i < |used| && after[i] && !used[i]
      ensures Some(i) in given
    {
      if !mid[i] {
        assert Some(i) in rest;
      } else {
        assert given[0] == Some(i);
      }
    }
  }

  /** The place of each box of the arranged slide: those given, then those
      left over, each with its new box. */
  function Seats(objects: seq<SlideObject>, places: seq<LayoutPlace>): seq<Option<nat>> {
    var (given, used) := Assign(objects, places, NoneUsed(|places|));
    given + SomeOf(Unused(used, 0))
  }

  function SomeOf(left: seq<nat>): (r: seq<Option<nat>>)
    ensures |r| == |left|
  {
    seq(|left|, k requires 0 <= k < |left| => Some(left[k]))
  }

  lemma NewBoxes(objects: seq<SlideObject>, places: seq<LayoutPlace>)
    ensures var seats := Seats(objects, places);
            && |objects| <= |seats| == |Arranged(objects, places)|
            && (forall k :: |objects| <= k < |seats| ==>
                  seats[k].Some? && seats[k].value < |places| && Arranged(objects, places)[k] == Empty(places[seats[k].value]))
  {
    hide PlaceFor, Put, Assign;
    var (given, used) := Assign(objects, places, NoneUsed(|places|));
    UnusedIs(used, 0);
  }

  /** An upright box on the place, for its role, with nothing in it. */
  ghost predicate EmptyBox(o: SlideObject, p: LayoutPlace) {
    && o.TextBox? && o.text == "" && o.runs == [] && o.body.paras == []
    && o.x == p.x && o.y == p.y && o.w == p.w && o.h == p.h && o.rotation == 0.0
    && o.body.placeholder == Some(p.role) && o.body.key == None
  }

  /** Every place of the layout has exactly one box, no box two places; the
      boxes with a place stand where it says. */
  lemma EveryPlaceOneBox(objects: seq<SlideObject>, places: seq<LayoutPlace>, i: nat)
    requires i < |places|
    ensures var seats := Seats(objects, places);
            && |seats| == |Arranged(objects, places)|
            && (exists k :: 0 <= k < |seats| && seats[k] == Some(i))
            && (forall j, k :: 0 <= j < k < |seats| && seats[j] == Some(i) ==> seats[k] != Some(i))
            && |objects| <= |seats|
            && (forall k :: |objects| <= k < |seats| && seats[k] == Some(i) ==> EmptyBox(Arranged(objects, places)[k], places[i]))
  {
    hide PlaceFor, Put, Assign, Arranged;
    NewBoxes(objects, places);
    var (given, used) := Assign(objects, places, NoneUsed(|places|));
    AssignFair(objects, places, NoneUsed(|places|));
    var left := Unused(used, 0);
    UnusedIs(used, 0);
    var seats := given + SomeOf(left);
    if used[i] {
      assert Some(i) in given;
      var k :| 0 <= k < |given| && given[k] == Some(i);
      assert seats[k] == Some(i);
    } else {
      assert i in left;
      var k :| 0 <= k < |left| && left[k] == i;
      assert seats[|given| + k] == Some(i);
    }
    forall j, k | 0 <= j < k < |seats| && seats[j] == Some(i)
      ensures seats[k] != Some(i)
    {
      if j < |given| <= k {
        assert used[i] && !used[left[k - |given|]];
      }
    }
  }

  /** `o` moved, or no longer a placeholder, but with all it held. */
  ghost predicate SameContent(o: SlideObject, p: SlideObject) {
    if o.TextBox? then
      p.TextBox? && p.text == o.text && p.runs == o.runs && p.rotation == o.rotation && p.body.paras == o.body.paras && p.body.key == o.body.key
    else p == o
  }

  /** The slide's own objects stay, in order, with their text; what is not a
      placeholder is untouched; a placeholder with a place stands there and
      keeps its role, one without stays where it is and has no role. */
  lemma KeepsAll(objects: seq<SlideObject>, places: seq<LayoutPlace>, k: nat)
    requires k < |objects|
    ensures var out, seats := Arranged(objects, places), Seats(objects, places);
            && |objects| <= |out| && k < |seats|
            && SameContent(objects[k], out[k])
            && (RoleKey(objects[k]).None? ==> out[k] == objects[k] && seats[k].None?)
            && (RoleKey(objects[k]).Some? ==>
                  match seats[k]
                  case Some(i) => i < |places| && RoleKey(out[k]) == RoleKey(objects[k])
                                  && out[k].x == places[i].x && out[k].y == places[i].y && out[k].w == places[i].w && out[k].h == places[i].h
                  case None => RoleKey(out[k]).None? && out[k].x == objects[k].x && out[k].y == objects[k].y
                               && out[k].w == objects[k].w && out[k].h == objects[k].h)
  {
    hide PlaceFor, Assign;
    var (given, used) := Assign(objects, places, NoneUsed(|places|));
    AssignFair(objects, places, NoneUsed(|places|));
    OnlyPlaceholders(objects, places, NoneUsed(|places|), k);
  }

  lemma {:induction false} OnlyPlaceholders(objects: seq<SlideObject>, places: seq<LayoutPlace>, used: seq<bool>, k: nat)
    requires |used| == |places| && k < |objects|
    ensures RoleKey(objects[k]).None? ==> Assign(objects, places, used).0[k].None?
    decreases |objects|
  {
    hide RoleKey;
    if k > 0 {
      OnlyPlaceholders(objects[1..], places, Mark(used, PlaceFor(objects[0], places, used)), k - 1);
    }
  }

  // ---------------------------------------------------------------- applying it again

  lemma PutTwice(o: SlideObject, places: seq<LayoutPlace>, used: seq<bool>, place: Option<nat>)
    requires |used| == |places| && place == PlaceFor(o, places, used)
    ensures PlaceFor(Put(o, At(places, place)), places, used) == place
    ensures Put(Put(o, At(places, place)), At(places, place)) == Put(o, At(places, place))
  {
    hide BestFrom, RoleFrom;
    FreePlace(o, places, used);
  }

  lemma {:induction false} AssignTwice(objects: seq<SlideObject>, places: seq<LayoutPlace>, used: seq<bool>)
    requires |used| == |places|
    ensures var (given, after) := Assign(objects, places, used);
            var kept := Placed(objects, places, given);
            Assign(kept, places, used) == (given, after) && Placed(kept, places, given) == kept
    decreases |objects|
  {
    hide PlaceFor, Put;
    if objects != [] {
      hide Assign, Placed;
      var o, rest := objects[0], objects[1..];
      var place := PlaceFor(o, places, used);
      PutTwice(o, places, used, place);
      AssignTwice(rest, places, Mark(used, place));
      var given := Assign(rest, places, Mark(used, place)).0;
      assert objects == [o] + rest;
      AssignFirst(o, rest, places, used);
      PlacedFirst(o, rest, places, place, given);
      AssignFirst(Put(o, At(places, place)), Placed(rest, places, given), places, used);
      PlacedFirst(Put(o, At(places, place)), Placed(rest, places, given), places, place, given);
    }
  }

  lemma {:induction false} AssignJoined(a: seq<SlideObject>, b: seq<SlideObject>, places: seq<LayoutPlace>, used: seq<bool>)
    requires |used| == |places|
    ensures var (given, mid) := Assign(a, places, used);
            var (more, after) := Assign(b, places, mid);
            Assign(a + b, places, used) == (given + more, after)
    decreases |a|
  {
    hide PlaceFor;
    if a == [] {
      assert a + b == b;
      assert [] + Assign(b, places, used).0 == Assign(b, places, used).0;
    } else {
      assert (a + b)[0] == a[0] && (a + b)[1..] == a[1..] + b;
      var place := PlaceFor(a[0], places, used);
      AssignJoined(a[1..], b, places, Mark(used, place));
      var (given, mid) := Assign(a[1..], places, Mark(used, place));
      var more := Assign(b, places, mid).0;
      assert [place] + (given + more) == [place] + given + more;
    }
  }

  lemma {:induction false} NoKeyNoMatch(places: seq<LayoutPlace>, used: seq<bool>, i: nat)
    requires |used| == |places| && i <= |places|
    ensures BestFrom(places, used, None, i, None).None?
    decreases |places| - i
  {
    if i < |places| {
      NoKeyNoMatch(places, used, i + 1);
    }
  }

  /** An empty box for the first free place goes to that place. */
  lemma EmptyGoesHome(places: seq<LayoutPlace>, used: seq<bool>, i: nat)
    requires |used| == |places| && i < |places| && !used[i] && forall k :: 0 <= k < i ==> used[k]
    ensures PlaceFor(Empty(places[i]), places, used) == Some(i) && Put(Empty(places[i]), Some(places[i])) == Empty(places[i])
  {
    NoKeyNoMatch(places, used, 0);
    RoleSkips(places, used, places[i].role, 0, i);
  }

  lemma {:induction false} RoleSkips(places: seq<LayoutPlace>, used: seq<bool>, role: Placeholder, k: nat, i: nat)
    requires |used| == |places| && k <= i < |places| && !used[i] && places[i].role == role && forall j :: k <= j < i ==> used[j]
    ensures RoleFrom(places, used, role, k) == Some(i)
    decreases i - k
  {
    if k < i {
      RoleSkips(places, used, role, k + 1, i);
    }
  }

  lemma {:induction false} UnusedSkips(used: seq<bool>, i: nat, j: nat)
    requires i <= j <= |used| && forall k :: i <= k < j ==> used[k]
    ensures Unused(used, i) == Unused(used, j)
    decreases j - i
  {
    if i < j {
      UnusedSkips(used, i + 1, j);
    }
  }

  /** The boxes added for the places left over all go to their own. */
  lemma {:induction false} EmptiesGoHome(places: seq<LayoutPlace>, used: seq<bool>, i: nat)
    requires |used| == |places| && i <= |places| && forall k :: 0 <= k < i ==> used[k]
    ensures Below(Unused(used, i), |places|)
    ensures var left := Unused(used, i);
            var boxes := Empties(places, left);
            var (given, after) := Assign(boxes, places, used);
            && given == SomeOf(left) && Placed(boxes, places, given) == boxes
            && (forall k :: 0 <= k < |places| ==> after[k])
    decreases |places| - i
  {
    hide PlaceFor, Put, Empty, Empties, Placed, SomeOf, Assign;
    UnusedIs(used, i);
    if i < |places| {
      if used[i] {
        assert [] + Unused(used, i + 1) == Unused(used, i + 1);
        EmptiesGoHome(places, used, i + 1);
      } else {
        EmptyGoesHome(places, used, i);
        var mid := used[i := true];
        EmptiesGoHome(places, mid, i + 1);
        SameUnused(used, mid, i + 1);
        FirstHome(places, used, mid, i, Unused(mid, i + 1));
      }
    } else {
      NothingHome(places, used);
    }
  }

  lemma NothingHome(places: seq<LayoutPlace>, used: seq<bool>)
    requires |used| == |places|
    ensures Assign(Empties(places, []), places, used) == (SomeOf([]), used)
    ensures Placed(Empties(places, []), places, SomeOf([])) == Empties(places, [])
  {
  }

  lemma HomesFirst(places: seq<LayoutPlace>, i: nat, rest: seq<nat>)
    requires i < |places| && Below(rest, |places|)
    ensures Below([i] + rest, |places|) && SomeOf([i] + rest) == [Some(i)] + SomeOf(rest)
    ensures Empties(places, [i] + rest) == [Empty(places[i])] + Empties(places, rest)
  {
    hide Empty;
  }

  lemma AssignFirst(o: SlideObject, rest: seq<SlideObject>, places: seq<LayoutPlace>, used: seq<bool>)
    requires |used| == |places|
    ensures var place := PlaceFor(o, places, used);
            var (given, after) := Assign(rest, places, Mark(used, place));
            Assign([o] + rest, places, used) == ([place] + given, after)
  {
    hide PlaceFor;
    assert ([o] + rest)[1..] == rest;
  }

  lemma PlacedFirst(o: SlideObject, rest: seq<SlideObject>, places: seq<LayoutPlace>, place: Option<nat>, given: seq<Option<nat>>)
    requires |given| == |rest|
    ensures Placed([o] + rest, places, [place] + given) == [Put(o, At(places, place))] + Placed(rest, places, given)
  {
    hide Put;
  }

  lemma FirstHome(places: seq<LayoutPlace>, used: seq<bool>, mid: seq<bool>, i: nat, rest: seq<nat>)
    requires |used| == |places| && i < |places| && mid == used[i := true] && Below(rest, |places|)
    requires PlaceFor(Empty(places[i]), places, used) == Some(i) && Put(Empty(places[i]), Some(places[i])) == Empty(places[i])
    requires Assign(Empties(places, rest), places, mid).0 == SomeOf(rest)
    requires Placed(Empties(places, rest), places, SomeOf(rest)) == Empties(places, rest)
    ensures var left := [i] + rest;
            var boxes := Empties(places, left);
            && Assign(boxes, places, used) == (SomeOf(left), Assign(Empties(places, rest), places, mid).1)
            && Placed(boxes, places, SomeOf(left)) == boxes
  {
    hide PlaceFor, Put, Empty, Assign, Placed, Empties, SomeOf;
    HomesFirst(places, i, rest);
    AssignFirst(Empty(places[i]), Empties(places, rest), places, used);
    PlacedFirst(Empty(places[i]), Empties(places, rest), places, Some(i), SomeOf(rest));
  }

  lemma {:induction false} SameUnused(a: seq<bool>, b: seq<bool>, i: nat)
    requires |a| == |b| && i <= |a| && forall k :: i <= k < |a| ==> a[k] == b[k]
    ensures Unused(a, i) == Unused(b, i)
    decreases |a| - i
  {
    if i < |a| {
      SameUnused(a, b, i + 1);
    }
  }

  /** A slide already on the layout stays as it is. */
  lemma ArrangedTwice(objects: seq<SlideObject>, places: seq<LayoutPlace>)
    ensures Arranged(Arranged(objects, places), places) == Arranged(objects, places)
  {
    hide Assign, Placed, Empties, Unused;
    var none := NoneUsed(|places|);
    var (given, used) := Assign(objects, places, none);
    UnusedIs(used, 0);
    var left := Unused(used, 0);
    var kept, boxes := Placed(objects, places, given), Empties(places, left);
    AssignTwice(objects, places, none);
    EmptiesGoHome(places, used, 0);
    AssignJoined(kept, boxes, places, none);
    var (more, after) := Assign(boxes, places, used);
    PlacedJoined(kept, boxes, places, given, more);
    AllUsed(after, 0);
    UnusedIs(after, 0);
    NoEmpties(places, Unused(after, 0));
    assert kept + boxes + [] == kept + boxes;
  }

  lemma PlacedJoined(a: seq<SlideObject>, b: seq<SlideObject>, places: seq<LayoutPlace>, given: seq<Option<nat>>, more: seq<Option<nat>>)
    requires |given| == |a| && |more| == |b|
    ensures Placed(a + b, places, given + more) == Placed(a, places, given) + Placed(b, places, more)
  {
  }

  lemma {:induction false} AllUsed(used: seq<bool>, i: nat)
    requires i <= |used| && forall k :: i <= k < |used| ==> used[k]
    ensures Unused(used, i) == []
    decreases |used| - i
  {
    if i < |used| {
      AllUsed(used, i + 1);
    }
  }

  lemma NoEmpties(places: seq<LayoutPlace>, left: seq<nat>)
    requires left == []
    ensures Below(left, |places|)
    ensures Empties(places, left) == []
  {
  }
}
