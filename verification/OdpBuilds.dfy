/** A slide's builds printed as its animation tree, and read back event by
    event. */
module OdpBuilds {
  import opened Engine
  import opened Sequences

  /** The tags of the tree that matter here. */
  datatype Tag = Par | Seq | Set | Filter | Animate | OtherTag

  datatype Class = Entrance | Exit | OtherClass

  /** An element with the attributes the reader looks at; objects are named by
      the ids the document gives them. */
  datatype Element = Element(tag: Tag, class_: Option<Class>, preset: Option<string>, sub: Option<string>, target: Option<nat>)

  datatype Event = Start(e: Element) | Empty(e: Element) | End

  // ---------------------------------------------------------------- effects and their presets

  predicate At(s: string, p: string, i: nat) {
    i + |p| <= |s| && s[i..i + |p|] == p
  }

  predicate Contains(s: string, p: string) {
    exists i :: 0 <= i <= |s| && At(s, p, i)
  }

  function EdgeName(edge: Edge, out: bool): string {
    match edge
    case Left => if out then "to-left" else "from-left"
    case Right => if out then "to-right" else "from-right"
    case Top => if out then "to-top" else "from-top"
    case Bottom => if out then "to-bottom" else "from-bottom"
  }

  /** The effect a preset names; one that is not known is a dissolve. */
  function EffectOf(preset: string, sub: Option<string>): BuildEffect {
    if EndsWith(preset, "-appear") || EndsWith(preset, "-disappear") then Appear
    else if Contains(preset, "fly") then
      var s := if sub.Some? then sub.value else "";
      Move(if EndsWith(s, "left") then Left else if EndsWith(s, "right") then Right else if EndsWith(s, "top") then Top else Bottom)
    else Dissolve
  }

  function PresetOf(effect: BuildEffect, out: bool): string {
    match effect
    case Appear => if out then "ooo-exit-disappear" else "ooo-entrance-appear"
    case Dissolve => if out then "ooo-exit-fade-out" else "ooo-entrance-fade-in"
    case Move(_) => if out then "ooo-exit-fly-out" else "ooo-entrance-fly-in"
  }

  function SubOf(effect: BuildEffect, out: bool): Option<string> {
    match effect
    case Move(edge) => Some(EdgeName(edge, out))
    case _ => None
  }

  /** A preset is named for the way the object goes, and so is its sub-type. */
  lemma PresetSaysWay(effect: BuildEffect, out: bool)
    ensures var p, x := PresetOf(effect, out), SubOf(effect, out);
            && (out <==> "ooo-exit-" <= p) && (!out <==> "ooo-entrance-" <= p)
            && (x.Some? ==> (out <==> "to-" <= x.value) && (!out <==> "from-" <= x.value))
  {
    var p, x := PresetOf(effect, out), SubOf(effect, out);
    assert p[5] == if out then 'x' else 'n';
    assert !("ooo-exit-"[5] == 'n') && !("ooo-entrance-"[5] == 'x');
    if out {
      assert p[..9] == "ooo-exit-";
    } else {
      assert p[..13] == "ooo-entrance-";
    }
    if x.Some? {
      assert x.value[0] == if out then 't' else 'f';
      if out {
        assert x.value[..3] == "to-";
      } else {
        assert x.value[..5] == "from-";
      }
    }
  }

  lemma LastDiffers(s: string, p: string)
    requires |s| > 0 && |p| > 0 && s[|s| - 1] != p[|p| - 1]
    ensures !EndsWith(s, p)
  {
    assert |p| <= |s| ==> s[|s| - |p|..][|p| - 1] == s[|s| - 1];
  }

  lemma NeedsLast(s: string, p: string)
    requires |p| > 0 && p[|p| - 1] !in s
    ensures !Contains(s, p)
  {
    forall i | 0 <= i <= |s|
      ensures !At(s, p, i)
    {
      assert i + |p| <= |s| ==> s[i..i + |p|][|p| - 1] == s[i + |p| - 1];
    }
  }

  lemma EdgeComesBack(edge: Edge, out: bool)
    ensures var s := EdgeName(edge, out);
            (if EndsWith(s, "left") then Left else if EndsWith(s, "right") then Right else if EndsWith(s, "top") then Top else Bottom) == edge
  {
    var s := EdgeName(edge, out);
    match edge
    case Left =>
      assert s[|s| - 4..] == "left";
    case Right =>
      assert s[|s| - 5..] == "right";
      assert s[|s| - 4] == 'i';
      assert s[|s| - 4..][0] == 'i';
    case Top =>
      assert s[|s| - 3..] == "top";
      LastDiffers(s, "left");
      LastDiffers(s, "right");
    case Bottom =>
      LastDiffers(s, "left");
      LastDiffers(s, "right");
      LastDiffers(s, "top");
  }

  lemma AppearPreset(out: bool)
    ensures EndsWith(PresetOf(Appear, out), "-appear") || EndsWith(PresetOf(Appear, out), "-disappear")
  {
    var p := PresetOf(Appear, out);
    if out {
      assert p[8..] == "-disappear";
    } else {
      assert p[12..] == "-appear";
    }
  }

  lemma FadePreset(out: bool)
    ensures var p := PresetOf(Dissolve, out); !EndsWith(p, "-appear") && !EndsWith(p, "-disappear") && !Contains(p, "fly")
  {
    var p := PresetOf(Dissolve, out);
    LastDiffers(p, "-appear");
    LastDiffers(p, "-disappear");
    NeedsLast(p, "fly");
  }

  lemma FlyPreset(edge: Edge, out: bool)
    ensures var p := PresetOf(Move(edge), out); !EndsWith(p, "-appear") && !EndsWith(p, "-disappear") && Contains(p, "fly")
  {
    hide EndsWith;
    var p := PresetOf(Move(edge), out);
    LastDiffers(p, "-appear");
    LastDiffers(p, "-disappear");
    var at := if out then 9 else 13;
    assert p[at..at + 3] == "fly";
    assert At(p, "fly", at);
  }

  /** Reading the preset and sub-type printed for an effect gives it back. */
  lemma EffectComesBack(effect: BuildEffect, out: bool)
    ensures EffectOf(PresetOf(effect, out), SubOf(effect, out)) == effect
  {
    hide EdgeName, Contains, EndsWith, PresetOf;
    match effect
    case Appear => AppearPreset(out);
    case Dissolve => FadePreset(out);
    case Move(edge) =>
      FlyPreset(edge, out);
      EdgeComesBack(edge, out);
  }

  // ---------------------------------------------------------------- printing

  function Plain(tag: Tag): Element {
    Element(tag, None, None, None, None)
  }

  function Aimed(tag: Tag, target: nat): Element {
    Element(tag, None, None, None, Some(target))
  }

  /** The animations of one effect: when the object shows, and how it moves. */
  function Motions(b: Build, target: nat): seq<Event> {
    var show := [Empty(Aimed(Set, target))];
    var motion :=
      match b.effect
      case Appear => []
      case Dissolve => [Empty(Aimed(Filter, target))]
      case Move(_) => [Empty(Aimed(Animate, target))];
    if b.out then motion + show else show + motion
  }

  /** An object is shown before it moves in, and hidden once it has moved out;
      it moves in place, fades or just shows, as the effect says. */
  lemma MotionsShow(b: Build, target: nat)
    ensures var m := Motions(b, target);
            && |m| == (if b.effect == Appear then 1 else 2)
            && (forall k :: 0 <= k < |m| ==> m[k].Empty? && m[k].e.target == Some(target))
            && (forall k :: 0 <= k < |m| ==> (m[k].e.tag == Set <==> k == if b.out then |m| - 1 else 0))
            && (forall k :: 0 <= k < |m| && m[k].e.tag != Set ==>
                  m[k].e.tag == if b.effect == Dissolve then Filter else Animate)
  {
  }

  function EffectElement(b: Build): Element {
    Element(Par, Some(if b.out then Exit else Entrance), Some(PresetOf(b.effect, b.out)), SubOf(b.effect, b.out), None)
  }

  /** One click: three nested elements, the inner one the effect. */
  function Click(b: Build, target: nat): seq<Event> {
    [Start(Plain(Par)), Start(Plain(Par)), Start(EffectElement(b))] + Motions(b, target) + [End, End, End]
  }

  function Clicks(builds: seq<Build>, name: nat -> nat): seq<Event> {
    if builds == [] then []
    else Clicks(builds[..|builds| - 1], name) + Click(builds[|builds| - 1], name(builds[|builds| - 1].target))
  }

  function Tree(clicks: seq<Event>): seq<Event> {
    [Start(Plain(Par)), Start(Plain(Seq))] + clicks + [End, End]
  }

  /** A slide's animation tree, if it has builds. `name` is the id the
      document gives an object. */
  method Animations(builds: seq<Build>, name: nat -> nat) returns (tree: Option<seq<Event>>)
    ensures builds == [] ==> tree == None
    ensures builds != [] ==> tree == Some(Tree(Clicks(builds, name)))
  {
    if builds == [] {
      return None;
    }
    var clicks: seq<Event> := [];
    var i := 0;
    while i < |builds|
      invariant 0 <= i <= |builds| && clicks == Clicks(builds[..i], name)
    {
      clicks := clicks + Click(builds[i], name(builds[i].target));
      assert builds[..i + 1][..i] == builds[..i];
      i := i + 1;
    }
    assert builds[..i] == builds;
    tree := Some(Tree(clicks));
  }

  // ---------------------------------------------------------------- reading

  /** The effect being read: what its element says, and its object once one is named. */
  datatype Effect = Effect(out: bool, preset: string, sub: Option<string>, target: Option<nat>)

  datatype Found = Found(out: bool, effect: BuildEffect, target: nat)

  datatype State = State(effect: Option<Effect>, depth: nat, found: seq<Found>)

  function Started(s: State, e: Element, empty: bool): State {
    if s.effect.Some? then
      var effect := s.effect.value;
      s.(effect := Some(if effect.target.None? then effect.(target := e.target) else effect),
         depth := if empty then s.depth else s.depth + 1)
    else if e.tag == Par && (e.class_ == Some(Entrance) || e.class_ == Some(Exit)) && !empty then
      s.(effect := Some(Effect(e.class_ == Some(Exit), if e.preset.Some? then e.preset.value else "", e.sub, None)), depth := 0)
    else s
  }

  function Ended(s: State): State {
    if s.effect.None? then s
    else if s.depth > 0 then s.(depth := s.depth - 1)
    else
      var effect := s.effect.value;
      s.(effect := None,
         found := if effect.target.Some? then s.found + [Found(effect.out, EffectOf(effect.preset, effect.sub), effect.target.value)] else s.found)
  }

  function ReadEvent(s: State, e: Event): State {
    match e
    case Start(x) => Started(s, x, false)
    case Empty(x) => Started(s, x, true)
    case End => Ended(s)
  }

  function Feed(s: State, events: seq<Event>): State
    decreases |events|
  {
    if events == [] then s else Feed(ReadEvent(s, events[0]), events[1..])
  }

  /** The object whose id is `name`: the first listed. */
  function ObjectOf(ids: seq<(nat, nat)>, name: nat): Option<nat> {
    if ids == [] then None else if ids[0].0 == name then Some(ids[0].1) else ObjectOf(ids[1..], name)
  }

  /** The builds found whose objects are listed. */
  function BuildsOf(found: seq<Found>, ids: seq<(nat, nat)>): seq<Build> {
    if found == [] then []
    else
      var last := found[|found| - 1];
      var o := ObjectOf(ids, last.target);
      BuildsOf(found[..|found| - 1], ids) + if o.Some? then [Build(o.value, last.effect, last.out)] else []
  }

  class BuildReader {
    var effect: Option<Effect>
    var depth: nat
    var found: seq<Found>

    function Value(): State
      reads this
    {
      State(effect, depth, found)
    }

    constructor ()
      ensures Value() == State(None, 0, [])
    {
      effect, depth, found := None, 0, [];
    }

    method Start(e: Element, empty: bool)
      modifies this
      ensures Value() == Started(old(Value()), e, empty)
    {
      if effect.Some? {
        if effect.value.target.None? {
          effect := Some(effect.value.(target := e.target));
        }
        if !empty {
          depth := depth + 1;
        }
        return;
      }
      if e.tag == Par && (e.class_ == Some(Entrance) || e.class_ == Some(Exit)) && !empty {
        effect := Some(Effect(e.class_ == Some(Exit), if e.preset.Some? then e.preset.value else "", e.sub, None));
        depth := 0;
      }
    }

    method End()
      modifies this
      ensures Value() == Ended(old(Value()))
    {
      if effect.None? {
        return;
      }
      if depth > 0 {
        depth := depth - 1;
        return;
      }
      var done := effect.value;
      if done.target.Some? {
        found := found + [Found(done.out, EffectOf(done.preset, done.sub), done.target.value)];
      }
      effect := None;
    }

    /** Every event of a page, one after the other. */
    method ReadAll(events: seq<Event>)
      modifies this
      ensures Value() == Feed(old(Value()), events)
    {
      hide Started, Ended;
      var i := 0;
      assert events[0..] == events;
      while i < |events|
        invariant 0 <= i <= |events| && Feed(Value(), events[i..]) == Feed(old(Value()), events)
      {
        assert events[i..][1..] == events[i + 1..];
        match events[i] {
          case Start(e) => Start(e, false);
          case Empty(e) => Start(e, true);
          case End => End();
        }
        i := i + 1;
      }
    }

    /** The builds read, their objects by `ids`. */
    method Builds(ids: seq<(nat, nat)>) returns (builds: seq<Build>)
      ensures builds == BuildsOf(found, ids)
    {
      builds := [];
      var i := 0;
      while i < |found|
        invariant 0 <= i <= |found| && builds == BuildsOf(found[..i], ids)
      {
        assert found[..i + 1][..i] == found[..i];
        var o := ObjectOf(ids, found[i].target);
        if o.Some? {
          builds := builds + [Build(o.value, found[i].effect, found[i].out)];
        }
        i := i + 1;
      }
      assert found[..i] == found;
    }
  }

  // ---------------------------------------------------------------- there and back

  lemma {:induction false} FeedJoin(s: State, a: seq<Event>, b: seq<Event>)
    ensures Feed(s, a + b) == Feed(Feed(s, a), b)
    decreases |a|
  {
    hide ReadEvent;
    if a == [] {
      assert a + b == b;
    } else {
      assert (a + b)[0] == a[0] && (a + b)[1..] == a[1..] + b;
      FeedJoin(ReadEvent(s, a[0]), a[1..], b);
    }
  }

  lemma FeedOne(s: State, e: Event)
    ensures Feed(s, [e]) == ReadEvent(s, e)
  {
    assert [e][1..] == [];
  }

  /** Inside an effect whose object is not named yet, its motions name it. */
  lemma MotionsRead(s: State, b: Build, target: nat)
    requires s.effect.Some? && s.effect.value.target.None?
    ensures Feed(s, Motions(b, target)) == s.(effect := Some(s.effect.value.(target := Some(target))))
  {
    var m := Motions(b, target);
    if |m| == 1 {
      FeedOne(s, m[0]);
      assert m == [m[0]];
    } else {
      assert m == [m[0]] + [m[1]];
      FeedJoin(s, [m[0]], [m[1]]);
      FeedOne(s, m[0]);
      FeedOne(ReadEvent(s, m[0]), m[1]);
    }
  }

  /** A click read: one effect found, and nothing left open. */
  lemma ClickRead(s: State, b: Build, target: nat)
    requires s.effect.None?
    ensures var t := Feed(s, Click(b, target)); t.effect.None? && t.found == s.found + [Found(b.out, b.effect, target)]
  {
    hide EffectOf, PresetOf, SubOf, Feed;
    var open := [Start(Plain(Par)), Start(Plain(Par)), Start(EffectElement(b))];
    var close := [End, End, End];
    FeedThree(s, Start(Plain(Par)), Start(Plain(Par)), Start(EffectElement(b)));
    var t := Feed(s, open);
    FeedJoin(s, open + Motions(b, target), close);
    FeedJoin(s, open, Motions(b, target));
    MotionsRead(t, b, target);
    FeedThree(Feed(t, Motions(b, target)), End, End, End);
    EffectComesBack(b.effect, b.out);
  }

  lemma FeedThree(s: State, x: Event, y: Event, z: Event)
    ensures Feed(s, [x, y, z]) == ReadEvent(ReadEvent(ReadEvent(s, x), y), z)
  {
    hide ReadEvent;
    assert [x, y, z] == [x] + [y] + [z];
    FeedJoin(s, [x] + [y], [z]);
    FeedJoin(s, [x], [y]);
    FeedOne(s, x);
    FeedOne(ReadEvent(s, x), y);
    FeedOne(ReadEvent(ReadEvent(s, x), y), z);
  }

  function FoundOf(builds: seq<Build>, name: nat -> nat): (r: seq<Found>)
    ensures |r| == |builds|
  {
    seq(|builds|, i requires 0 <= i < |builds| => Found(builds[i].out, builds[i].effect, name(builds[i].target)))
  }

  lemma {:induction false} ClicksRead(s: State, builds: seq<Build>, name: nat -> nat)
    requires s.effect.None?
    ensures var t := Feed(s, Clicks(builds, name)); t.effect.None? && t.found == s.found + FoundOf(builds, name)
    decreases |builds|
  {
    hide ReadEvent, Click;
    if builds == [] {
      assert s.found + [] == s.found;
    } else {
      var n := |builds| - 1;
      var b := builds[n];
      ClicksRead(s, builds[..n], name);
      FeedJoin(s, Clicks(builds[..n], name), Click(b, name(b.target)));
      ClickRead(Feed(s, Clicks(builds[..n], name)), b, name(b.target));
      assert FoundOf(builds, name) == FoundOf(builds[..n], name) + [Found(b.out, b.effect, name(b.target))];
      assert s.found + FoundOf(builds[..n], name) + [Found(b.out, b.effect, name(b.target))] == s.found + FoundOf(builds, name);
    }
  }

  /** The whole tree read, whatever was read before it. */
  lemma TreeRead(s: State, builds: seq<Build>, name: nat -> nat)
    requires s.effect.None?
    ensures Feed(s, Tree(Clicks(builds, name))).found == s.found + FoundOf(builds, name)
    ensures Feed(s, Tree(Clicks(builds, name))).effect.None?
  {
    hide Feed, Clicks;
    var open, clicks, close := [Start(Plain(Par)), Start(Plain(Seq))], Clicks(builds, name), [End, End];
    FeedTwo(s, Start(Plain(Par)), Start(Plain(Seq)));
    FeedJoin(s, open + clicks, close);
    FeedJoin(s, open, clicks);
    ClicksRead(s, builds, name);
    FeedTwo(Feed(s, clicks), End, End);
  }

  lemma FeedTwo(s: State, x: Event, y: Event)
    ensures Feed(s, [x, y]) == ReadEvent(ReadEvent(s, x), y)
  {
    assert [x, y] == [x] + [y];
    FeedJoin(s, [x], [y]);
    FeedOne(s, x);
    FeedOne(ReadEvent(s, x), y);
  }

  /** `ids` lists each object of `builds` under its name. */
  ghost predicate Lists(ids: seq<(nat, nat)>, builds: seq<Build>, name: nat -> nat) {
    forall b :: b in builds ==> ObjectOf(ids, name(b.target)) == Some(b.target)
  }

  lemma {:induction false} FoundBuilds(builds: seq<Build>, name: nat -> nat, ids: seq<(nat, nat)>)
    requires Lists(ids, builds, name)
    ensures BuildsOf(FoundOf(builds, name), ids) == builds
    decreases |builds|
  {
    if builds != [] {
      var n := |builds| - 1;
      assert builds[n] in builds && forall b :: b in builds[..n] ==> b in builds;
      FoundBuilds(builds[..n], name, ids);
      var found := FoundOf(builds, name);
      assert found[..n] == FoundOf(builds[..n], name);
      assert builds == builds[..n] + [builds[n]];
    }
  }

  lemma {:induction false} InjectiveLists(objects: seq<nat>, name: nat -> nat, o: nat)
    requires o in objects && forall x, y :: x in objects && y in objects && name(x) == name(y) ==> x == y
    ensures ObjectOf(Named(objects, name), name(o)) == Some(o)
  {
    var ids := Named(objects, name);
    if objects[0] != o {
      assert objects[0] in objects;
      assert ids[1..] == Named(objects[1..], name);
      assert forall x :: x in objects[1..] ==> x in objects;
      InjectiveLists(objects[1..], name, o);
    }
  }

  function Named(objects: seq<nat>, name: nat -> nat): (r: seq<(nat, nat)>)
    ensures |r| == |objects|
  {
    seq(|objects|, i requires 0 <= i < |objects| => (name(objects[i]), objects[i]))
  }

  /** Printed and read back, builds are the same in the same order, under any
      naming that tells the slide's objects apart, if all of theirs are there. */
  lemma BuildsComeBack(builds: seq<Build>, objects: seq<nat>, name: nat -> nat, s: State)
    requires s.effect.None? && s.found == []
    requires forall x, y :: x in objects && y in objects && name(x) == name(y) ==> x == y
    requires forall b :: b in builds ==> b.target in objects
    ensures BuildsOf(Feed(s, Tree(Clicks(builds, name))).found, Named(objects, name)) == builds
  {
    hide Feed, Clicks, Tree;
    TreeRead(s, builds, name);
    forall b | b in builds
      ensures ObjectOf(Named(objects, name), name(b.target)) == Some(b.target)
    {
      InjectiveLists(objects, name, b.target);
    }
    FoundBuilds(builds, name, Named(objects, name));
    assert [] + FoundOf(builds, name) == FoundOf(builds, name);
  }

  /** The name the writer gives: the object's place, the first for one that is
      not there. */
  function PlaceOf(objects: seq<nat>, o: nat): nat {
    var at := IndexOf(objects, o);
    if at.Some? then at.value else 0
  }

  lemma {:induction false} PlacesListed(objects: seq<nat>, from: nat, k: nat)
    requires k < |objects|
    ensures ObjectOf(Places(objects, from), from + k) == Some(objects[k])
  {
    if k > 0 {
      assert Places(objects, from)[1..] == Places(objects[1..], from + 1);
      PlacesListed(objects[1..], from + 1, k - 1);
    }
  }

  /** Objects as read, each under its place. */
  function Places(objects: seq<nat>, from: nat): (r: seq<(nat, nat)>)
    ensures |r| == |objects|
  {
    seq(|objects|, i requires 0 <= i < |objects| => (from + i, objects[i]))
  }

  /** By the writer's own naming: a build comes back on its object exactly when
      that object is on the slide, or the slide's first. One whose object is
      gone comes back on the first object. */
  lemma BuildTargets(builds: seq<Build>, objects: seq<nat>, s: State, k: nat)
    requires s.effect.None? && s.found == [] && objects != [] && k < |builds|
    ensures var name := (o: nat) => PlaceOf(objects, o);
            var back := BuildsOf(Feed(s, Tree(Clicks(builds, name))).found, Places(objects, 0));
            && |back| == |builds|
            && back[k] == builds[k].(target := objects[PlaceOf(objects, builds[k].target)])
            && (back[k] == builds[k] <==> builds[k].target in objects)
  {
    hide Feed, Clicks, Tree;
    var name := (o: nat) => PlaceOf(objects, o);
    TreeRead(s, builds, name);
    assert [] + FoundOf(builds, name) == FoundOf(builds, name);
    AllPlaced(builds, objects, name);
  }

  lemma {:induction false} AllPlaced(builds: seq<Build>, objects: seq<nat>, name: nat -> nat)
    requires objects != [] && forall o :: name(o) == PlaceOf(objects, o)
    ensures var back := BuildsOf(FoundOf(builds, name), Places(objects, 0));
            && |back| == |builds|
            && forall k :: 0 <= k < |builds| ==> back[k] == builds[k].(target := objects[PlaceOf(objects, builds[k].target)])
    decreases |builds|
  {
    if builds != [] {
      var n := |builds| - 1;
      AllPlaced(builds[..n], objects, name);
      assert FoundOf(builds, name)[..n] == FoundOf(builds[..n], name);
      PlacesListed(objects, 0, PlaceOf(objects, builds[n].target));
      assert 0 + PlaceOf(objects, builds[n].target) == name(builds[n].target);
    }
  }
}
