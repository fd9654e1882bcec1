/** The parts a package's relationships name. */
module Relationships {
  import opened Engine
  import opened Sequences
  import opened Markup
  import opened MarkupLaws

  // ---------------------------------------------------------------- paths

  const SLASH: char := '/'

  /** `s` cut at its slashes. */
  function Split(s: string): (r: seq<string>)
    ensures r != []
    decreases |s|
  {
    if s == "" then [""]
    else
      var rest, c := Split(s[..|s| - 1]), s[|s| - 1];
      if c == SLASH then rest + [""] else rest[|rest| - 1 := rest[|rest| - 1] + [c]]
  }

  function Join(parts: seq<string>): string {
    if parts == [] then ""
    else if |parts| == 1 then parts[0]
    else Join(parts[..|parts| - 1]) + [SLASH] + parts[|parts| - 1]
  }

  function Filled(parts: seq<string>): seq<string> {
    if parts == [] then []
    else Filled(parts[..|parts| - 1]) + if parts[|parts| - 1] == "" then [] else [parts[|parts| - 1]]
  }

  /** The segments of a path. */
  function Segments(path: string): seq<string> {
    Filled(Split(path))
  }

  function Walk(parts: seq<string>, seg: string): seq<string> {
    if seg == ".." then (if parts == [] then [] else parts[..|parts| - 1])
    else if seg == "." || seg == "" then parts
    else parts + [seg]
  }

  function WalkAll(parts: seq<string>, segs: seq<string>): seq<string> {
    if segs == [] then parts else Walk(WalkAll(parts, segs[..|segs| - 1]), segs[|segs| - 1])
  }

  /** `target`, relative to folder `base`, as a package path. */
  function Resolve(base: string, target: string): string {
    if target != "" && target[0] == SLASH then target[1..]
    else Join(WalkAll(Segments(base), Split(target)))
  }

  method ResolvePath(base: string, target: string) returns (path: string)
    ensures path == Resolve(base, target)
  {
    if target != "" && target[0] == SLASH {
      return target[1..];
    }
    var parts := Segments(base);
    var segs := Split(target);
    var i := 0;
    while i < |segs|
      invariant 0 <= i <= |segs| && parts == WalkAll(Segments(base), segs[..i])
    {
      var seg := segs[i];
      assert segs[..i + 1][..i] == segs[..i];
      if seg == ".." {
        if parts != [] {
          parts := parts[..|parts| - 1];
        }
      } else if seg != "." && seg != "" {
        parts := parts + [seg];
      }
      i := i + 1;
    }
    assert segs[..i] == segs;
    path := Join(parts);
  }

  /** The folder the relationships in `path` resolve against. */
  function RelsBase(path: string): string {
    var parts := Segments(path);
    var up := if parts == [] then [] else parts[..|parts| - 1];
    Join(if up != [] && up[|up| - 1] == "_rels" then up[..|up| - 1] else up)
  }

  predicate IsDot(seg: string) {
    seg == "." || seg == ".."
  }

  ghost predicate Proper(parts: seq<string>) {
    forall k :: 0 <= k < |parts| ==> parts[k] != "" && SLASH !in parts[k]
  }

  ghost predicate NoDots(parts: seq<string>) {
    forall k :: 0 <= k < |parts| ==> !IsDot(parts[k])
  }

  lemma {:induction false} FilledJoin(a: seq<string>, b: seq<string>)
    ensures Filled(a + b) == Filled(a) + Filled(b)
  {
    if b == [] {
      assert a + b == a;
    } else {
      FilledJoin(a, b[..|b| - 1]);
      assert (a + b)[..|a + b| - 1] == a + b[..|b| - 1];
      var last := if b[|b| - 1] == "" then [] else [b[|b| - 1]];
      assert Filled(a) + Filled(b[..|b| - 1]) + last == Filled(a) + (Filled(b[..|b| - 1]) + last);
    }
  }

  lemma {:induction false} SplitPieces(s: string)
    ensures forall k :: 0 <= k < |Split(s)| ==> SLASH !in Split(s)[k]
    decreases |s|
  {
    if s != "" {
      SplitPieces(s[..|s| - 1]);
    }
  }

  lemma {:induction false} FilledProper(parts: seq<string>)
    requires forall k :: 0 <= k < |parts| ==> SLASH !in parts[k]
    ensures Proper(Filled(parts))
  {
    if parts != [] {
      FilledProper(parts[..|parts| - 1]);
    }
  }

  lemma {:induction false} SplitPlain(s: string, p: string)
    requires SLASH !in p
    ensures Split(s + p) == Split(s)[|Split(s)| - 1 := Split(s)[|Split(s)| - 1] + p]
    decreases |p|
  {
    var r := Split(s);
    if p == "" {
      assert s + p == s;
      assert r[|r| - 1] + p == r[|r| - 1];
    } else {
      var n := |p| - 1;
      assert forall c :: c in p[..n] ==> c in p;
      SplitPlain(s, p[..n]);
      assert (s + p)[..|s| + n] == s + p[..n];
      assert p[n] in p;
      assert r[|r| - 1] + p[..n] + [p[n]] == r[|r| - 1] + p by {
        assert p == p[..n] + [p[n]];
      }
    }
  }

  /** Proper segments joined and cut again are the same. */
  lemma {:induction false} SegmentsOfJoin(parts: seq<string>)
    requires Proper(parts)
    ensures parts != [] ==> Split(Join(parts)) == parts
    ensures Segments(Join(parts)) == parts
  {
    if parts == [] {
      assert Split("") == [""];
      assert [""][..0] == [];
    } else {
      var n := |parts| - 1;
      FilledAll(parts);
      if n == 0 {
        OnePart(parts);
      } else {
        SegmentsOfJoin(parts[..n]);
        assert parts == parts[..n] + [parts[n]];
        LastPart(parts[..n], parts[n]);
      }
    }
  }

  lemma OnePart(parts: seq<string>)
    requires |parts| == 1 && Proper(parts)
    ensures Split(Join(parts)) == parts
  {
    SplitPlain("", parts[0]);
    assert "" + parts[0] == parts[0];
    assert parts == [parts[0]];
  }

  lemma LastPart(init: seq<string>, last: string)
    requires init != [] && SLASH !in last && Split(Join(init)) == init
    ensures Split(Join(init + [last])) == init + [last]
  {
    hide Split;
    var s := Join(init) + [SLASH];
    JoinMore(init, last);
    AfterSlash(Join(init));
    SplitPlain(s, last);
    assert "" + last == last;
    assert (init + [""])[|init| := last] == init + [last];
  }

  lemma JoinMore(init: seq<string>, last: string)
    requires init != []
    ensures Join(init + [last]) == Join(init) + [SLASH] + last
  {
    assert (init + [last])[..|init|] == init;
  }

  lemma AfterSlash(a: string)
    ensures Split(a + [SLASH]) == Split(a) + [""]
  {
    assert (a + [SLASH])[..|a|] == a;
  }

  lemma {:induction false} FilledAll(parts: seq<string>)
    requires Proper(parts)
    ensures Filled(parts) == parts
  {
    if parts != [] {
      FilledAll(parts[..|parts| - 1]);
      assert parts == parts[..|parts| - 1] + [parts[|parts| - 1]];
    }
  }

  lemma {:induction false} WalkProper(parts: seq<string>, segs: seq<string>)
    requires Proper(parts) && forall k :: 0 <= k < |segs| ==> SLASH !in segs[k]
    ensures Proper(WalkAll(parts, segs))
    ensures NoDots(parts) ==> NoDots(WalkAll(parts, segs))
  {
    if segs != [] {
      WalkProper(parts, segs[..|segs| - 1]);
    }
  }

  /** A relative target resolves to its walk from the base; it has a dot
      segment only if the base had. */
  lemma ResolvedSegments(base: string, target: string)
    requires target == "" || target[0] != SLASH
    ensures Segments(Resolve(base, target)) == WalkAll(Segments(base), Split(target))
    ensures NoDots(Segments(base)) ==> NoDots(Segments(Resolve(base, target)))
  {
    SplitPieces(base);
    FilledProper(Split(base));
    SplitPieces(target);
    WalkProper(Segments(base), Split(target));
    SegmentsOfJoin(WalkAll(Segments(base), Split(target)));
  }

  /** A base with a dot segment keeps it: the walk starts from the base as it is. */
  lemma DotInBaseStays(base: string, name: string)
    requires name != "" && SLASH !in name && !IsDot(name)
    ensures NoDots(Segments(Resolve(base, name))) <==> NoDots(Segments(base))
  {
    SplitPlain("", name);
    assert "" + name == name;
    assert name[0] in name;
    ResolvedSegments(base, name);
    assert Split(name) == [name];
    assert [name][..0] == [];
    var parts := WalkAll(Segments(base), [name]);
    assert WalkAll(Segments(base), []) == Segments(base);
    assert parts == Segments(base) + [name];
    assert forall k :: 0 <= k < |Segments(base)| ==> parts[k] == Segments(base)[k];
  }

  /** How many segments the walk from `n` has at its end, and how many of the
      first `n` it never goes below. */
  function Reach(n: nat, segs: seq<string>): (r: (nat, nat))
    ensures r.1 <= n && r.1 <= r.0
  {
    if segs == [] then (n, n)
    else
      var (high, low) := Reach(n, segs[..|segs| - 1]);
      var seg := segs[|segs| - 1];
      if seg == ".." then (var down := if high == 0 then 0 else high - 1; (down, if low < down then low else down))
      else if seg == "." || seg == "" then (high, low)
      else (high + 1, low)
  }

  lemma {:induction false} WalkKeeps(parts: seq<string>, segs: seq<string>)
    ensures var (high, low) := Reach(|parts|, segs);
            var walk := WalkAll(parts, segs);
            |walk| == high && walk[..low] == parts[..low] && forall k :: low <= k < high ==> !IsDot(walk[k])
  {
    if segs != [] {
      WalkKeeps(parts, segs[..|segs| - 1]);
      var before := WalkAll(parts, segs[..|segs| - 1]);
      var walk := WalkAll(parts, segs);
      assert forall k :: 0 <= k < |walk| && k < |before| ==> walk[k] == before[k];
      var low := Reach(|parts|, segs).1;
      assert walk[..low] == before[..low];
    }
  }

  /** A relative target resolves to a path without a dot segment exactly when
      the part of the base its walk never leaves has none. */
  lemma DotsThatStay(base: string, target: string)
    requires target == "" || target[0] != SLASH
    ensures NoDots(Segments(Resolve(base, target))) <==>
            NoDots(Segments(base)[..Reach(|Segments(base)|, Split(target)).1])
  {
    hide Split, Filled, Join, WalkAll, Resolve, Reach;
    var parts, segs := Segments(base), Split(target);
    ResolvedSegments(base, target);
    WalkKeeps(parts, segs);
    var (high, low) := Reach(|parts|, segs);
    var walk := WalkAll(parts, segs);
    assert forall k :: 0 <= k < low ==> walk[k] == walk[..low][k] == parts[..low][k];
  }

  /** So every relative target does exactly when the base has none. */
  lemma NoDotsExactly(base: string)
    ensures NoDots(Segments(base)) <==>
            forall target: string :: target == "" || target[0] != SLASH ==> NoDots(Segments(Resolve(base, target)))
  {
    hide Split, Filled, Join, WalkAll, Resolve, NoDots;
    if NoDots(Segments(base)) {
      forall target: string | target == "" || target[0] != SLASH
        ensures NoDots(Segments(Resolve(base, target)))
      {
        ResolvedSegments(base, target);
      }
    } else {
      var name := "a";
      PlainName();
      DotInBaseStays(base, name);
    }
  }

  lemma PlainName()
    ensures SLASH !in "a" && !IsDot("a") && "a"[0] != SLASH
  {
  }

  /** Relationships of a part with no dot segment in its path resolve to paths
      with none. */
  lemma RelsResolve(path: string, target: string)
    requires NoDots(Segments(path)) && (target == "" || target[0] != SLASH)
    ensures NoDots(Segments(Resolve(RelsBase(path), target)))
  {
    hide Split, Filled, Join, WalkAll, Resolve, Proper, NoDots;
    SplitPieces(path);
    FilledProper(Split(path));
    var parts := Segments(path);
    var up := if parts == [] then [] else parts[..|parts| - 1];
    var base := if up != [] && up[|up| - 1] == "_rels" then up[..|up| - 1] else up;
    Shorter(parts);
    Shorter(up);
    SegmentsOfJoin(base);
    ResolvedSegments(RelsBase(path), target);
  }

  lemma Shorter(parts: seq<string>)
    requires Proper(parts) && NoDots(parts)
    ensures parts != [] ==> Proper(parts[..|parts| - 1]) && NoDots(parts[..|parts| - 1])
  {
  }

  // ---------------------------------------------------------------- relationships

  function Lower(c: char): char {
    if 'A' <= c <= 'Z' then c - 'A' + 'a' else c
  }

  predicate SameIgnoringCase(a: string, b: string) {
    |a| == |b| && forall i :: 0 <= i < |a| ==> Lower(a[i]) == Lower(b[i])
  }

  /** A mode read as external is that word, each letter small or capital. */
  lemma ExternalSpelled(mode: string)
    ensures SameIgnoringCase(mode, "external") <==>
            && |mode| == 8
            && mode[0] in "eE" && mode[1] in "xX" && mode[2] in "tT" && mode[3] in "eE"
            && mode[4] in "rR" && mode[5] in "nN" && mode[6] in "aA" && mode[7] in "lL"
  {
    if |mode| == 8 {
      forall i | 0 <= i < 8
        ensures Lower(mode[i]) == Lower("external"[i]) <==> mode[i] == "external"[i] || mode[i] == "EXTERNAL"[i]
      {
        assert 'a' <= "external"[i] <= 'z' && "EXTERNAL"[i] == "external"[i] - 'a' + 'A';
      }
    }
  }

  /** The target a tag names, if it is a relationship of that type to a part. */
  function TargetIn(tag: StartTag, suffix: string): Option<string> {
    var mode, kind := AttrValue(tag.attrs, "TargetMode"), AttrValue(tag.attrs, "Type");
    if tag.local != "Relationship" then None
    else if mode.Some? && SameIgnoringCase(mode.value, "external") then None
    else if kind.Some? && EndsWith(kind.value, suffix) then AttrValue(tag.attrs, "Target")
    else None
  }

  function TargetsIn(tags: seq<StartTag>, suffix: string): seq<string> {
    if tags == [] then []
    else
      var t := TargetIn(tags[|tags| - 1], suffix);
      TargetsIn(tags[..|tags| - 1], suffix) + if t.Some? then [t.value] else []
  }

  method InternalTargets(rels: string, suffix: string) returns (targets: seq<string>)
    ensures targets == TargetsIn(StartTags(rels), suffix)
  {
    hide StartTags, AttrValue;
    var tags := ScanTags(rels);
    targets := [];
    var i := 0;
    while i < |tags|
      invariant 0 <= i <= |tags| && targets == TargetsIn(tags[..i], suffix)
    {
      var tag := tags[i];
      assert tags[..i + 1][..i] == tags[..i];
      if tag.local == "Relationship" {
        var mode := FindAttr(tag.attrs, "TargetMode");
        if !(mode.Some? && SameIgnoringCase(mode.value, "external")) {
          var kind := FindAttr(tag.attrs, "Type");
          if kind.Some? && EndsWith(kind.value, suffix) {
            var target := FindAttr(tag.attrs, "Target");
            if target.Some? {
              targets := targets + [target.value];
            }
          }
        }
      }
      i := i + 1;
    }
    assert tags[..i] == tags;
  }

  /** The relationship an element of a document is, by its local names. */
  function TargetSeen(s: Sight, suffix: string): Option<string> {
    var mode, kind := LookUp(s.values, "TargetMode"), LookUp(s.values, "Type");
    if s.local != "Relationship" then None
    else if mode.Some? && SameIgnoringCase(mode.value, "external") then None
    else if kind.Some? && EndsWith(kind.value, suffix) then LookUp(s.values, "Target")
    else None
  }

  function TargetsSeen(sights: seq<Sight>, suffix: string): seq<string> {
    if sights == [] then []
    else
      var t := TargetSeen(sights[|sights| - 1], suffix);
      TargetsSeen(sights[..|sights| - 1], suffix) + if t.Some? then [t.value] else []
  }

  ghost predicate Alike(tags: seq<StartTag>, sights: seq<Sight>) {
    |tags| == |sights| && forall k :: 0 <= k < |tags| ==> Like(tags[k], sights[k])
  }

  ghost predicate Like(tag: StartTag, s: Sight) {
    tag.local == s.local && forall want: string :: AttrValue(tag.attrs, want) == LookUp(s.values, want)
  }

  lemma {:induction false} AlikeTargets(tags: seq<StartTag>, sights: seq<Sight>, suffix: string)
    requires Alike(tags, sights)
    ensures TargetsIn(tags, suffix) == TargetsSeen(sights, suffix)
    decreases |tags|
  {
    hide AttrValue, LookUp, SameIgnoringCase, EndsWith;
    if tags != [] {
      var n := |tags| - 1;
      AlikeTargets(tags[..n], sights[..n], suffix);
      assert Like(tags[n], sights[n]);
    }
  }

  /** The parts found are those of the document's own relationships of that
      type, external ones apart, in order: whatever prefixes, quotes, spacing,
      comments or character data it was written with. */
  lemma TargetsExactly(items: seq<Item>, suffix: string)
    requires Scannable(items)
    ensures TargetsIn(StartTags(Print(items)), suffix) == TargetsSeen(Sights(items), suffix)
  {
    hide StartTags, Print, AttrValue, LookUp, TargetsIn, TargetsSeen, Sights, TagsOf, Scannable;
    ScansExactly(items);
    SameCount(items);
    var tags := TagsOf(items);
    forall k | 0 <= k < |tags|
      ensures Like(tags[k], Sights(items)[k])
    {
      SightsAre(items, k, "");
      forall want: string
        ensures AttrValue(tags[k].attrs, want) == LookUp(Sights(items)[k].values, want)
      {
        SightsAre(items, k, want);
      }
    }
    AlikeTargets(tags, Sights(items), suffix);
  }
}
