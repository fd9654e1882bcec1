/** A box's paragraphs printed as OpenDocument text, levelled ones as nested
    lists, and read back. */
module OdpText {
  import opened Engine
  import opened Sequences

  /** One list level's marker and indents. */
  datatype Level = Level(level: nat, bullet: Bullet, marginLeft: real, indent: real)

  /** What is printed; a style by its number in its table, from 1. */
  datatype Tag =
    | OpenList(style: Option<nat>)
    | CloseList
    | OpenItem
    | CloseItem
    | Para(look: Option<nat>, content: string)

  const DEFAULT_PARA := ParaStyle(0, 0, NoBullet, 0.0, 0.0)

  // ---------------------------------------------------------------- well-formed output

  /** Where the printer stands: in a list, or in an item; whether it holds
      anything yet. */
  datatype Context = InList(filled: bool) | InItem(filled: bool)

  function Filled(open: seq<Context>): seq<Context> {
    if open == [] then []
    else
      var top := open[|open| - 1];
      open[..|open| - 1] + [if top.InList? then InList(true) else InItem(true)]
  }

  /** OpenDocument 1.2 part 1, section 5.3: a list holds only items; a list or
      paragraph stands in the box or in an item; what is opened is closed. No
      list or item is empty. */
  function Checks(open: seq<Context>, t: Tag): Option<seq<Context>> {
    var top := if open == [] then None else Some(open[|open| - 1]);
    match t
    case OpenList(_) =>
      if top.Some? && top.value.InList? then None else Some(Filled(open) + [InList(false)])
    case CloseList =>
      if top == Some(InList(true)) then Some(open[..|open| - 1]) else None
    case OpenItem =>
      if top.Some? && top.value.InList? then Some(Filled(open) + [InItem(false)]) else None
    case CloseItem =>
      if top == Some(InItem(true)) then Some(open[..|open| - 1]) else None
    case Para(_, _) =>
      if top.Some? && top.value.InList? then None else Some(Filled(open))
  }

  /** What is open after `tags`; none if they are not well formed. */
  function Checked(tags: seq<Tag>): Option<seq<Context>>
    decreases |tags|
  {
    if tags == [] then Some([])
    else
      var open := Checked(tags[..|tags| - 1]);
      if open.None? then None else Checks(open.value, tags[|tags| - 1])
  }

  // ---------------------------------------------------------------- numbering schemes

  predicate StartsWith(s: string, p: string) {
    |p| <= |s| && s[..|p|] == p
  }

  function FormatOf(scheme: string): string {
    if StartsWith(scheme, "alphaLc") then "a"
    else if StartsWith(scheme, "alphaUc") then "A"
    else if StartsWith(scheme, "romanLc") then "i"
    else if StartsWith(scheme, "romanUc") then "I"
    else "1"
  }

  function FixOf(scheme: string): (string, string) {
    if EndsWith(scheme, "ParenBoth") then ("(", ")")
    else if EndsWith(scheme, "ParenR") then ("", ")")
    else if EndsWith(scheme, "Plain") then ("", "")
    else ("", ".")
  }

  /** OpenDocument's number format, prefix and suffix for a numbering scheme. */
  function NumFormat(scheme: string): (string, string, string) {
    (FormatOf(scheme), FixOf(scheme).0, FixOf(scheme).1)
  }

  function BaseOf(fmt: string): string {
    if fmt == "a" then "alphaLc" else if fmt == "A" then "alphaUc" else if fmt == "i" then "romanLc" else if fmt == "I" then "romanUc" else "arabic"
  }

  function TailOf(prefix: string, suffix: string): string {
    if prefix == "(" && suffix == ")" then "ParenBoth" else if suffix == ")" then "ParenR" else if suffix == "" then "Plain" else "Period"
  }

  function SchemeOf(fmt: string, prefix: string, suffix: string): string {
    BaseOf(fmt) + TailOf(prefix, suffix)
  }

  const FORMATS := ["1", "a", "A", "i", "I"]

  const FIXES := [("(", ")"), ("", ")"), ("", ""), ("", ".")]

  /** The twenty schemes the reader can name. */
  ghost predicate Canonical(scheme: string) {
    exists f, p, s :: f in FORMATS && (p, s) in FIXES && scheme == SchemeOf(f, p, s)
  }

  lemma Ends(base: string, tail: string)
    ensures EndsWith(base + tail, tail) && (base + tail)[|base|..] == tail
    ensures StartsWith(base + tail, base)
  {
  }

  lemma NotStart(s: string, p: string, k: nat)
    requires k < |s| && k < |p| && s[k] != p[k]
    ensures !StartsWith(s, p)
  {
    assert |p| <= |s| ==> s[..|p|][k] == s[k];
  }

  lemma NotEnd(s: string, p: string)
    requires |p| > 0 && |s| > 0 && s[|s| - 1] != p[|p| - 1]
    ensures !EndsWith(s, p)
  {
    assert |p| <= |s| ==> s[|s| - |p|..][|p| - 1] == s[|s| - 1];
  }

  lemma FormatBase(f: string, tail: string)
    requires f in FORMATS
    ensures NumFormat(BaseOf(f) + tail).0 == f
  {
    var base := BaseOf(f);
    var s := base + tail;
    Ends(base, tail);
    assert s[0] == base[0] && s[5] == base[5];
    if f == "1" {
      NotStart(s, "alphaLc", 1);
      NotStart(s, "alphaUc", 1);
      NotStart(s, "romanLc", 0);
      NotStart(s, "romanUc", 0);
    } else if f == "A" {
      NotStart(s, "alphaLc", 5);
    } else if f == "i" {
      NotStart(s, "alphaLc", 0);
      NotStart(s, "alphaUc", 0);
    } else if f == "I" {
      NotStart(s, "alphaLc", 0);
      NotStart(s, "alphaUc", 0);
      NotStart(s, "romanLc", 5);
    }
  }

  lemma FixEnds(s: string, tail: string)
    requires |s| > 0 && EndsWith(s, tail)
    ensures tail == "ParenBoth" ==> FixOf(s) == ("(", ")")
    ensures tail == "ParenR" ==> FixOf(s) == ("", ")")
    ensures tail == "Plain" ==> FixOf(s) == ("", "")
    ensures tail == "Period" ==> FixOf(s) == ("", ".")
  {
    assert tail != "" ==> s[|s| - 1] == s[|s| - |tail|..][|tail| - 1];
    if s[|s| - 1] != 'h' {
      NotEnd(s, "ParenBoth");
    }
    if s[|s| - 1] != 'R' {
      NotEnd(s, "ParenR");
    }
    if s[|s| - 1] != 'n' {
      NotEnd(s, "Plain");
    }
  }

  lemma FormatTail(base: string, p: string, x: string)
    requires (p, x) in FIXES
    ensures FixOf(base + TailOf(p, x)) == (p, x)
  {
    hide EndsWith, FixOf;
    Ends(base, TailOf(p, x));
    FixEnds(base + TailOf(p, x), TailOf(p, x));
  }

  /** A numbering scheme comes back exactly when it is one the reader can name. */
  lemma SchemeComesBack(scheme: string)
    ensures var (f, p, s) := NumFormat(scheme); SchemeOf(f, p, s) == scheme <==> Canonical(scheme)
  {
    var (f, p, s) := NumFormat(scheme);
    assert f in FORMATS && (p, s) in FIXES;
    if Canonical(scheme) {
      var g, q, x :| g in FORMATS && (q, x) in FIXES && scheme == SchemeOf(g, q, x);
      FormatBase(g, TailOf(q, x));
      FormatTail(BaseOf(g), q, x);
    }
  }

  /** A list level's marker as declared and read: numbering by its format, so
      under the name the reader has for that. */
  function AsRead(b: Bullet): Bullet {
    match b
    case AutoNum(scheme, start) =>
      var (f, p, s) := NumFormat(scheme);
      AutoNum(SchemeOf(f, p, s), start)
    case _ => b
  }

  /** A mark, or numbering by one of the twenty schemes. */
  ghost predicate Nameable(b: Bullet) {
    b.AutoNum? ==> Canonical(b.scheme)
  }

  lemma MarkerComesBack(b: Bullet)
    ensures AsRead(b) == b <==> Nameable(b)
  {
    if b.AutoNum? {
      SchemeComesBack(b.scheme);
    }
  }

  // ---------------------------------------------------------------- reading

  /** A paragraph as the reader meets it: its style, the style of the
      outermost list that names one, and how many lists it is in. */
  datatype Met = Met(look: Option<nat>, list: Option<nat>, depth: nat, content: string)

  datatype Scan = Scan(lists: seq<Option<nat>>, met: seq<Met>)

  function FirstName(lists: seq<Option<nat>>): Option<nat> {
    if lists == [] then None else if lists[0].Some? then lists[0] else FirstName(lists[1..])
  }

  function ScanTag(s: Scan, t: Tag): Scan {
    match t
    case OpenList(style) => s.(lists := s.lists + [style])
    case CloseList => if s.lists == [] then s else s.(lists := s.lists[..|s.lists| - 1])
    case Para(look, content) => s.(met := s.met + [Met(look, FirstName(s.lists), |s.lists|, content)])
    case _ => s
  }

  /** The reader's stack of lists, and the paragraphs met, after `tags`. */
  function Scanned(tags: seq<Tag>): Scan
    decreases |tags|
  {
    if tags == [] then Scan([], []) else ScanTag(Scanned(tags[..|tags| - 1]), tags[|tags| - 1])
  }

  // ---------------------------------------------------------------- where a paragraph stands

  /** The lists and items open, outermost first, each by the place of its tag;
      and those each paragraph stands in. */
  datatype Walk = Walk(open: seq<nat>, at: seq<seq<nat>>)

  function WalkTag(w: Walk, t: Tag, place: nat): Walk {
    match t
    case OpenList(_) => w.(open := w.open + [place])
    case OpenItem => w.(open := w.open + [place])
    case Para(_, _) => w.(at := w.at + [w.open])
    case _ => if w.open == [] then w else w.(open := w.open[..|w.open| - 1])
  }

  function Walked(tags: seq<Tag>): Walk
    decreases |tags|
  {
    if tags == [] then Walk([], []) else WalkTag(Walked(tags[..|tags| - 1]), tags[|tags| - 1], |tags| - 1)
  }

  lemma WalkMore(out: seq<Tag>, t: Tag)
    ensures Walked(out + [t]) == WalkTag(Walked(out), t, |out|)
  {
    assert (out + [t])[..|out|] == out;
  }

  predicate Under(s: seq<nat>, bound: nat) {
    forall k :: 0 <= k < |s| ==> s[k] < bound
  }

  predicate AtLeast(s: seq<nat>, from: nat, bound: nat) {
    forall k :: from <= k < |s| ==> s[k] >= bound
  }

  predicate AllUnder(at: seq<seq<nat>>, bound: nat) {
    forall k :: 0 <= k < |at| ==> Under(at[k], bound)
  }

  lemma {:induction false} WalkUnder(tags: seq<Tag>)
    ensures Under(Walked(tags).open, |tags|) && AllUnder(Walked(tags).at, |tags|)
    decreases |tags|
  {
    if tags != [] {
      WalkUnder(tags[..|tags| - 1]);
    }
  }

  function Least(a: nat, b: nat): nat {
    if a <= b then a else b
  }

  /** How many lists and items are shared with the paragraph before: all that
      one stands in, but for what is as deep as this one's own item. */
  function Shared(at: seq<seq<nat>>, k: nat): nat
    requires k < |at|
  {
    if k == 0 || at[k] == [] then 0 else Least(|at[k - 1]|, |at[k]| - 1)
  }

  /** A paragraph stands in a list and an item for each level down to its own. */
  function Height(st: ParaStyle): nat {
    if st.bullet == NoBullet then 0 else 2 * (st.level + 1)
  }

  /** What the paragraph shares with the one before is that one's. */
  ghost predicate SharedAt(at: seq<seq<nat>>, k: nat)
    requires k < |at|
  {
    && Shared(at, k) <= |at[k]|
    && (k > 0 ==> Shared(at, k) <= |at[k - 1]| && at[k][..Shared(at, k)] == at[k - 1][..Shared(at, k)])
  }

  /** What it does not share begins after all there was. */
  ghost predicate FreshAt(at: seq<seq<nat>>, j: nat, k: nat)
    requires j < k < |at|
  {
    forall q, p :: 0 <= q < |at[j]| && Shared(at, k) <= p < |at[k]| ==> at[j][q] < at[k][p]
  }

  ghost predicate NestedAs(styles: seq<ParaStyle>, at: seq<seq<nat>>) {
    && |at| <= |styles|
    && (forall k :: 0 <= k < |at| ==> |at[k]| == Height(styles[k]))
    && (forall k :: 0 <= k < |at| ==> SharedAt(at, k))
    && (forall j, k :: 0 <= j < k < |at| ==> FreshAt(at, j, k))
  }

  /** One more paragraph: what it does not share is past `bound`, under which
      all the others are. */
  lemma NestedMore(styles: seq<ParaStyle>, at: seq<seq<nat>>, b: seq<nat>, bound: nat)
    requires NestedAs(styles, at) && |at| < |styles| && |b| == Height(styles[|at|])
    requires AllUnder(at, bound) && AtLeast(b, Shared(at + [b], |at|), bound)
    requires var s := Shared(at + [b], |at|); s > 0 ==> at != [] && s <= |b| && s <= |at[|at| - 1]| && b[..s] == at[|at| - 1][..s]
    ensures NestedAs(styles, at + [b])
  {
    var more := at + [b];
    forall k | 0 <= k < |more|
      ensures SharedAt(more, k)
    {
      if k < |at| {
        assert SharedAt(at, k) && Shared(more, k) == Shared(at, k);
      }
    }
    forall j, k | 0 <= j < k < |more|
      ensures FreshAt(more, j, k)
    {
      if k < |at| {
        assert FreshAt(at, j, k) && Shared(more, k) == Shared(at, k);
      } else {
        assert Under(at[j], bound);
      }
    }
  }

  function Lookup(levels: seq<Level>, l: nat): Option<Level> {
    if levels == [] then None else if levels[0].level == l then Some(levels[0]) else Lookup(levels[1..], l)
  }

  /** The style read for a paragraph: its own, and in a list the level its
      depth makes (eight at most) with that level's marker as read, and its
      indents where the paragraph states none. */
  function Read(m: Met, paras: seq<ParaStyle>, lists: seq<seq<Level>>): ParaStyle {
    var own := if m.look.Some? && 0 < m.look.value <= |paras| then paras[m.look.value - 1] else DEFAULT_PARA;
    if m.depth == 0 then own.(level := 0, bullet := NoBullet)
    else
      var level := if m.depth - 1 < 8 then m.depth - 1 else 8;
      var l := if m.list.Some? && 0 < m.list.value <= |lists| then Lookup(lists[m.list.value - 1], level) else None;
      if l.None? then own.(level := level, bullet := NoBullet)
      else own.(level := level, bullet := AsRead(l.value.bullet),
                marginLeft := if own.marginLeft == 0.0 then l.value.marginLeft else own.marginLeft,
                indent := if own.indent == 0.0 then l.value.indent else own.indent)
  }

  // ---------------------------------------------------------------- what is promised

  /** The block of list paragraphs `i` is in starts here. */
  function BlockStart(styles: seq<ParaStyle>, i: nat): (b: nat)
    requires i < |styles|
    ensures b <= i
    ensures styles[i].bullet != NoBullet ==> forall j :: b <= j <= i ==> styles[j].bullet != NoBullet
  {
    if i == 0 || styles[i].bullet == NoBullet || styles[i - 1].bullet == NoBullet then i else BlockStart(styles, i - 1)
  }

  /** The first of `styles[b..]` at level `l`. */
  function FirstAt(styles: seq<ParaStyle>, b: nat, l: nat): (f: nat)
    requires b <= |styles|
    ensures b <= f <= |styles|
    ensures f < |styles| ==> styles[f].level == l
    ensures forall j :: b <= j < f ==> styles[j].level != l
    decreases |styles| - b
  {
    if b == |styles| || styles[b].level == l then b else FirstAt(styles, b + 1, l)
  }

  lemma FirstAtIs(styles: seq<ParaStyle>, b: nat, l: nat, i: nat)
    requires b <= i < |styles| && styles[i].level == l
    ensures FirstAt(styles, b, l) <= i
  {
  }

  /** The style paragraph `i` comes back with: a list paragraph takes the
      marker of the first of its level in its block, as read, and its indents
      where its own are zero; a plain paragraph has no level. */
  function Expected(styles: seq<ParaStyle>, i: nat): ParaStyle
    requires i < |styles|
  {
    var st := styles[i];
    if st.bullet == NoBullet then st.(level := 0)
    else
      FirstAtIs(styles, BlockStart(styles, i), st.level, i);
      var first := styles[FirstAt(styles, BlockStart(styles, i), st.level)];
      st.(bullet := AsRead(first.bullet),
          marginLeft := if st.marginLeft == 0.0 then first.marginLeft else st.marginLeft,
          indent := if st.indent == 0.0 then first.indent else st.indent)
  }

  // ---------------------------------------------------------------- levels

  function LevelOf(st: ParaStyle): Level {
    Level(st.level, st.bullet, st.marginLeft, st.indent)
  }

  /** `levels` has, for each level of `styles[i..j]`, its first paragraph's marker. */
  ghost predicate LevelsOf(levels: seq<Level>, styles: seq<ParaStyle>, i: nat, j: nat)
    requires i <= j <= |styles|
  {
    forall l :: Lookup(levels, l) == var f := FirstAt(styles, i, l); if f < j then Some(LevelOf(styles[f])) else None
  }

  lemma {:induction false} LookupAdded(levels: seq<Level>, x: Level, l: nat)
    ensures Lookup(levels + [x], l) == if Lookup(levels, l).Some? then Lookup(levels, l) else if x.level == l then Some(x) else None
  {
    if levels == [] {
      assert levels + [x] == [x];
    } else {
      assert (levels + [x])[1..] == levels[1..] + [x];
      LookupAdded(levels[1..], x, l);
    }
  }

  /** `x` where it belongs in a list by level, after its equals. */
  function Sorted(levels: seq<Level>, x: Level): (r: seq<Level>) {
    if levels == [] then [x]
    else if levels[0].level <= x.level then [levels[0]] + Sorted(levels[1..], x)
    else [x] + levels
  }

  /** By level, each once. */
  predicate Rising(levels: seq<Level>) {
    forall a, b :: 0 <= a < b < |levels| ==> levels[a].level < levels[b].level
  }

  lemma {:induction false} LookupIs(levels: seq<Level>, l: nat)
    ensures Lookup(levels, l).None? <==> forall k :: 0 <= k < |levels| ==> levels[k].level != l
  {
    if levels != [] {
      LookupIs(levels[1..], l);
      assert forall k :: 0 < k < |levels| ==> levels[k] == levels[1..][k - 1];
    }
  }

  lemma {:induction false} SortedRises(levels: seq<Level>, x: Level)
    requires Rising(levels) && Lookup(levels, x.level).None?
    ensures Rising(Sorted(levels, x)) && |Sorted(levels, x)| == |levels| + 1
    ensures forall k :: 0 <= k <= |levels| ==> Sorted(levels, x)[k] == x || Sorted(levels, x)[k] in levels
  {
    if levels != [] {
      LookupIs(levels, x.level);
      if levels[0].level <= x.level {
        SortedRises(levels[1..], x);
        var rest := Sorted(levels[1..], x);
        forall k | 0 <= k < |rest|
          ensures levels[0].level < rest[k].level
        {
          if rest[k] != x {
            assert rest[k] in levels[1..];
          }
        }
      }
    }
  }

  function SortByLevel(levels: seq<Level>): seq<Level>
    decreases |levels|
  {
    if levels == [] then [] else Sorted(SortByLevel(levels[..|levels| - 1]), levels[|levels| - 1])
  }

  lemma {:induction false} LookupSorted(levels: seq<Level>, x: Level, l: nat)
    requires Lookup(levels, x.level).None?
    ensures Lookup(Sorted(levels, x), l) == if l == x.level then Some(x) else Lookup(levels, l)
  {
    if levels != [] {
      LookupSorted(levels[1..], x, l);
      if levels[0].level <= x.level {
        assert Sorted(levels, x)[1..] == Sorted(levels[1..], x);
      } else {
        assert ([x] + levels)[1..] == levels;
      }
    }
  }

  /** No level twice. */
  ghost predicate Distinct(levels: seq<Level>)
    decreases |levels|
  {
    levels == [] || (
      && Lookup(levels[..|levels| - 1], levels[|levels| - 1].level).None?
      && Distinct(levels[..|levels| - 1]))
  }

  /** Sorting a list of distinct levels keeps what each level is. */
  lemma {:induction false} SortKeeps(levels: seq<Level>, l: nat)
    requires Distinct(levels)
    ensures Lookup(SortByLevel(levels), l) == Lookup(levels, l)
    decreases |levels|
  {
    if levels != [] {
      var x := levels[|levels| - 1];
      var rest := levels[..|levels| - 1];
      assert levels == rest + [x];
      SortKeeps(rest, l);
      SortKeeps(rest, x.level);
      LookupSorted(SortByLevel(rest), x, l);
      LookupAdded(rest, x, l);
    }
  }

  lemma {:induction false} SortRises(levels: seq<Level>)
    requires Distinct(levels)
    ensures Rising(SortByLevel(levels))
    decreases |levels|
  {
    if levels != [] {
      var x := levels[|levels| - 1];
      var rest := levels[..|levels| - 1];
      SortRises(rest);
      SortKeeps(rest, x.level);
      SortedRises(SortByLevel(rest), x);
    }
  }

  lemma DistinctAdded(levels: seq<Level>, x: Level)
    requires Distinct(levels) && Lookup(levels, x.level).None?
    ensures Distinct(levels + [x])
  {
    assert (levels + [x])[..|levels|] == levels;
  }

  lemma FirstAtGrows(styles: seq<ParaStyle>, i: nat, j: nat, l: nat)
    requires i <= j < |styles|
    ensures FirstAt(styles, i, l) < j + 1 <==> FirstAt(styles, i, l) < j || styles[j].level == l
  {
  }

  /** One more paragraph looked at: its level's marker, if it is the first. */
  lemma LevelsMore(levels: seq<Level>, styles: seq<ParaStyle>, i: nat, j: nat)
    requires i <= j < |styles| && LevelsOf(levels, styles, i, j)
    ensures var known := Lookup(levels, styles[j].level).Some?;
            LevelsOf(if known then levels else levels + [LevelOf(styles[j])], styles, i, j + 1)
  {
    var known := Lookup(levels, styles[j].level).Some?;
    var more := if known then levels else levels + [LevelOf(styles[j])];
    forall l
      ensures Lookup(more, l) == var f := FirstAt(styles, i, l); if f < j + 1 then Some(LevelOf(styles[f])) else None
    {
      LookupAdded(levels, LevelOf(styles[j]), l);
      FirstAtGrows(styles, i, j, l);
    }
  }

  // ---------------------------------------------------------------- the printer's stack

  /** `n` lists, each with an item open that holds something. */
  function Full(n: nat): seq<Context> {
    if n == 0 then [] else Full(n - 1) + [InList(true), InItem(true)]
  }

  /** The lists and items open when `items` says of each list whether an item
      of it is; `filled`: the innermost list holds something. */
  function Opened(items: seq<bool>, filled: bool): seq<Context>
    requires items != []
  {
    Full(|items| - 1) + (if items[|items| - 1] then [InList(true), InItem(true)] else [InList(filled)])
  }

  /** All lists but the innermost have an item open. */
  ghost predicate Nested(items: seq<bool>) {
    items != [] && forall d :: 0 <= d < |items| - 1 ==> items[d]
  }

  function ListStack(name: nat, n: nat): (r: seq<Option<nat>>)
    requires n > 0
    ensures |r| == n
  {
    if n == 1 then [Some(name)] else ListStack(name, n - 1) + [None]
  }

  lemma {:induction false} StackName(name: nat, n: nat)
    requires n > 0
    ensures |ListStack(name, n)| == n && FirstName(ListStack(name, n)) == Some(name) && ListStack(name, n)[0] == Some(name)
  {
    if n > 1 {
      StackName(name, n - 1);
    }
  }

  lemma {:induction false} FullLength(n: nat)
    ensures |Full(n)| == 2 * n
  {
    if n > 0 {
      FullLength(n - 1);
    }
  }

  /** Where the printer stands inside a list. */
  ghost predicate Stands(out: seq<Tag>, items: seq<bool>, filled: bool, name: nat, met: seq<Met>) {
    && Nested(items)
    && Checked(out) == Some(Opened(items, filled))
    && Scanned(out) == Scan(ListStack(name, |items|), met)
  }

  lemma Appended(out: seq<Tag>, t: Tag)
    ensures var more := out + [t];
            && Scanned(more) == ScanTag(Scanned(out), t)
            && (Checked(out).Some? ==> Checked(more) == Checks(Checked(out).value, t))
  {
    assert (out + [t])[..|out|] == out;
  }

  lemma Unfilled(open: seq<Context>, c: Context)
    ensures Filled(open + [c]) == open + [if c.InList? then InList(true) else InItem(true)]
  {
    assert (open + [c])[..|open|] == open;
  }

  /** An item begun, in a list that has none open. */
  lemma ItemBegun(out: seq<Tag>, items: seq<bool>, filled: bool, name: nat, met: seq<Met>)
    requires Stands(out, items, filled, name, met) && !items[|items| - 1]
    ensures Checked(out + [OpenItem]) == Some(Full(|items| - 1) + [InList(true)] + [InItem(false)])
    ensures Scanned(out + [OpenItem]) == Scanned(out)
  {
    Appended(out, OpenItem);
    var base := Full(|items| - 1);
    assert Opened(items, filled) == base + [InList(filled)];
    Unfilled(base, InList(filled));
  }

  /** What is put in an item just begun fills it. */
  lemma ItemFilled(out: seq<Tag>, n: nat, t: Tag)
    requires n > 0 && Checked(out) == Some(Full(n - 1) + [InList(true)] + [InItem(false)]) && (t.Para? || t.OpenList?)
    ensures Checked(out + [t]) == Some(if t.Para? then Full(n) else Full(n) + [InList(false)])
  {
    Appended(out, t);
    var base := Full(n - 1) + [InList(true)];
    Unfilled(base, InItem(false));
    assert base + [InItem(true)] == Full(n);
  }

  lemma FullEnds(n: nat)
    requires n > 0
    ensures Full(n) == Full(n - 1) + [InList(true)] + [InItem(true)]
    ensures |Full(n)| > 0 && Full(n)[|Full(n)| - 1] == InItem(true) && Full(n)[..|Full(n)| - 1] == Full(n - 1) + [InList(true)]
  {
    assert Full(n) == Full(n - 1) + [InList(true)] + [InItem(true)];
  }

  lemma AllOpen(items: seq<bool>, filled: bool)
    requires Nested(items) && items[|items| - 1]
    ensures Opened(items, filled) == Full(|items|)
  {
  }

  /** The innermost item and list closed. */
  lemma ListClosed(out: seq<Tag>, items: seq<bool>, filled: bool, name: nat, met: seq<Met>)
    requires Stands(out, items, filled, name, met) && items[|items| - 1]
    ensures var less := out + [CloseItem] + [CloseList];
            Checked(less) == Some(Full(|items| - 1)) && Scanned(less).met == met
            && Scanned(less).lists == ListStack(name, |items|)[..|items| - 1]
  {
    AllOpen(items, filled);
    FullEnds(|items|);
    StackName(name, |items|);
    Appended(out, CloseItem);
    Appended(out + [CloseItem], CloseList);
    var base := Full(|items| - 1);
    assert (base + [InList(true)])[..|base|] == base;
  }

  lemma StackLess(name: nat, n: nat)
    requires n > 1
    ensures ListStack(name, n)[..n - 1] == ListStack(name, n - 1)
  {
    StackName(name, n - 1);
  }

  lemma OuterStands(out: seq<Tag>, items: seq<bool>, filled: bool, name: nat, met: seq<Met>)
    requires Stands(out, items, filled, name, met) && items[|items| - 1] && |items| > 1
    ensures Stands(out + [CloseItem] + [CloseList], items[..|items| - 1], true, name, met)
  {
    hide Checked, Scanned, Full, ListStack;
    ListClosed(out, items, filled, name, met);
    StackLess(name, |items|);
    AllOpen(items[..|items| - 1], true);
  }

  lemma ListStands(out: seq<Tag>, items: seq<bool>, filled: bool, name: nat, met: seq<Met>)
    requires Stands(out, items, filled, name, met) && items[|items| - 1]
    ensures Stands(out + [CloseItem], items[|items| - 1 := false], true, name, met)
  {
    hide Checked, Scanned, Full, ListStack;
    AllOpen(items, filled);
    FullEnds(|items|);
    Appended(out, CloseItem);
  }

  // ---------------------------------------------------------------- the printer

  function Key(st: ParaStyle): ParaStyle {
    st.(level := 0, bullet := NoBullet)
  }

  ghost predicate LookIs(look: Option<nat>, key: ParaStyle, paras: seq<ParaStyle>) {
    if look.None? then key == DEFAULT_PARA else 0 < look.value <= |paras| && paras[look.value - 1] == key
  }

  /** Paragraph `j` is met where its style comes back as expected. */
  ghost predicate MetIs(m: Met, styles: seq<ParaStyle>, j: nat, content: string, paras: seq<ParaStyle>, lists: seq<seq<Level>>)
    requires j < |styles|
  {
    && m.content == content
    && LookIs(m.look, Key(styles[j]), paras)
    && (styles[j].bullet == NoBullet ==> m.depth == 0)
    && (styles[j].bullet != NoBullet ==>
          && m.depth == styles[j].level + 1
          && m.list.Some? && 0 < m.list.value <= |lists|
          && Lookup(lists[m.list.value - 1], styles[j].level)
             == Some(LevelOf(styles[First(styles, j)])))
  }

  /** The first paragraph of `j`'s level in its block. */
  function First(styles: seq<ParaStyle>, j: nat): (f: nat)
    requires j < |styles|
    ensures f <= j
  {
    FirstAtIs(styles, BlockStart(styles, j), styles[j].level, j);
    FirstAt(styles, BlockStart(styles, j), styles[j].level)
  }

  lemma ReadsBack(m: Met, styles: seq<ParaStyle>, j: nat, content: string, paras: seq<ParaStyle>, lists: seq<seq<Level>>)
    requires j < |styles| && MetIs(m, styles, j, content, paras, lists)
    requires styles[j].bullet != NoBullet ==> styles[j].level <= 8
    ensures Read(m, paras, lists) == Expected(styles, j)
  {
  }

  /** Deeper than the ninth level a paragraph comes back at the ninth. */
  lemma TooDeep(m: Met, styles: seq<ParaStyle>, j: nat, content: string, paras: seq<ParaStyle>, lists: seq<seq<Level>>)
    requires j < |styles| && MetIs(m, styles, j, content, paras, lists)
    requires styles[j].bullet != NoBullet && styles[j].level > 8
    ensures Read(m, paras, lists).level == 8
  {
  }

  lemma {:induction false} BlockStartIs(styles: seq<ParaStyle>, b: nat, j: nat)
    requires b <= j < |styles| && (forall k :: b <= k <= j ==> styles[k].bullet != NoBullet)
    requires b == 0 || styles[b - 1].bullet == NoBullet
    ensures BlockStart(styles, j) == b
  {
    if j > b {
      BlockStartIs(styles, b, j - 1);
    }
  }

  method IndexIn<T(==)>(list: seq<T>, item: T) returns (table: seq<T>, n: nat)
    ensures list <= table && 0 < n <= |table| && table[n - 1] == item
    ensures item in list ==> table == list
    ensures item !in list ==> table == list + [item]
  {
    n := 0;
    while n < |list|
      invariant 0 <= n <= |list| && item !in list[..n]
    {
      if list[n] == item {
        return list, n + 1;
      }
      n := n + 1;
    }
    return list + [item], |list| + 1;
  }

  /** How many lists and items are open. */
  function Depth(items: seq<bool>): (n: nat)
    requires items != []
  {
    if items[|items| - 1] then 2 * |items| else 2 * |items| - 1
  }

  /** Lists and items closed, the outer ones of `before` left as they were. */
  ghost predicate Shut(before: seq<Tag>, out: seq<Tag>, items: seq<bool>) {
    && items != []
    && Walked(out).at == Walked(before).at
    && |Walked(out).open| == Depth(items) <= |Walked(before).open|
    && Walked(out).open == Walked(before).open[..Depth(items)]
  }

  lemma ShutList(before: seq<Tag>, out: seq<Tag>, items: seq<bool>)
    requires Shut(before, out, items) && Nested(items) && items[|items| - 1] && |items| > 1
    ensures Shut(before, out + [CloseItem] + [CloseList], items[..|items| - 1])
  {
    WalkMore(out, CloseItem);
    WalkMore(out + [CloseItem], CloseList);
  }

  lemma ShutItem(before: seq<Tag>, out: seq<Tag>, items: seq<bool>)
    requires Shut(before, out, items) && items[|items| - 1]
    ensures Shut(before, out + [CloseItem], items[|items| - 1 := false])
  {
    WalkMore(out, CloseItem);
  }

  /** Lists and items opened inside those of `before`. */
  ghost predicate Deeper(before: seq<Tag>, out: seq<Tag>, items: seq<bool>, bound: nat) {
    && items != []
    && Walked(out).at == Walked(before).at
    && |Walked(out).open| == Depth(items)
    && Walked(before).open <= Walked(out).open
    && AtLeast(Walked(out).open, |Walked(before).open|, bound)
    && |out| >= bound
  }

  lemma DeeperTag(before: seq<Tag>, out: seq<Tag>, items: seq<bool>, bound: nat, t: Tag)
    requires Deeper(before, out, items, bound)
    requires t == OpenItem || t == OpenList(None)
    requires items[|items| - 1] <==> t != OpenItem
    ensures Deeper(before, out + [t], if t == OpenItem then items[|items| - 1 := true] else items + [false], bound)
  {
    WalkMore(out, t);
  }

  /** The paragraph stands in an item at its depth, in the lists and items of
      `before` down to that depth, and in new ones from there. */
  ghost predicate Put(before: seq<Tag>, out: seq<Tag>, target: nat)
    requires target > 0
  {
    var was := Walked(before);
    var now := Walked(out);
    && now.at == was.at + [now.open] && |now.open| == 2 * target
    && var kept := Least(|was.open|, 2 * target - 1);
       now.open[..kept] == was.open[..kept] && AtLeast(now.open, kept, |before|)
  }

  lemma PutAt(before: seq<Tag>, was: seq<bool>, shut: seq<Tag>, mid: seq<bool>, out: seq<Tag>, items: seq<bool>, para: Tag)
    requires was != [] && Shut(before, shut, mid) && Deeper(shut, out, items, |before|) && para.Para?
    requires |Walked(before).open| == Depth(was)
    requires |was| < |items| ==> mid == was
    requires |was| >= |items| ==> |mid| == |items| && !mid[|mid| - 1]
    requires !items[|items| - 1]
    ensures Put(before, out + [OpenItem] + [para], |items|)
  {
    WalkMore(out, OpenItem);
    WalkMore(out + [OpenItem], para);
    var kept := Least(Depth(was), 2 * |items| - 1);
    assert kept == Depth(mid);
    assert Walked(out).open[..kept] == Walked(shut).open;
  }

  /** Lists deeper than `target` closed, and the item open at that depth. */
  method CloseDown(before: seq<Tag>, was: seq<bool>, target: nat, ghost filled: bool, ghost name: nat, ghost met: seq<Met>)
    returns (out: seq<Tag>, items: seq<bool>, ghost full: bool)
    requires Stands(before, was, filled, name, met) && target > 0
    requires was[|was| - 1] || |was| == 1
    requires |Walked(before).open| == Depth(was)
    ensures Stands(out, items, full, name, met) && |items| <= target
    ensures |items| == target ==> !items[|items| - 1]
    ensures Shut(before, out, items) && |out| >= |before|
    ensures if |was| < target then items == was else |items| == target
  {
    out, items, full := before, was, filled;
    assert Shut(before, out, items);
    assert Nested(items);
    hide Checked, Scanned, Full, ListStack, Walked, Shut, Depth, Stands;
    while |items| > target
      invariant Nested(items) && Stands(out, items, full, name, met) && (items[|items| - 1] || |items| == 1)
      invariant Shut(before, out, items) && |out| >= |before|
      invariant if |was| < target then items == was else |items| >= target
      decreases |items|
    {
      OuterStands(out, items, full, name, met);
      ShutList(before, out, items);
      out := out + [CloseItem] + [CloseList];
      items := items[..|items| - 1];
      full := true;
    }
    if |items| == target && items[|items| - 1] {
      ListStands(out, items, full, name, met);
      ShutItem(before, out, items);
      out := out + [CloseItem];
      items := items[|items| - 1 := false];
      full := true;
    }
  }

  /** A list begun in the item open. */
  lemma InnerStands(out: seq<Tag>, items: seq<bool>, filled: bool, name: nat, met: seq<Met>)
    requires Stands(out, items, filled, name, met) && items[|items| - 1]
    ensures Stands(out + [OpenList(None)], items + [false], false, name, met)
  {
    hide Checked, Scanned, Full, ListStack;
    var n := |items|;
    DeeperStack(name, n);
    AllOpen(items, filled);
    FullEnds(n);
    Appended(out, OpenList(None));
    Unfilled(Full(n - 1) + [InList(true)], InItem(true));
  }

  /** And in one begun for it. */
  lemma InnerBegun(out: seq<Tag>, items: seq<bool>, filled: bool, name: nat, met: seq<Met>)
    requires Stands(out, items, filled, name, met) && !items[|items| - 1]
    ensures Stands(out + [OpenItem] + [OpenList(None)], items[|items| - 1 := true] + [false], false, name, met)
  {
    hide Checked, Scanned, Full, ListStack;
    var n := |items|;
    DeeperStack(name, n);
    ItemBegun(out, items, filled, name, met);
    ItemFilled(out + [OpenItem], n, OpenList(None));
    Appended(out + [OpenItem], OpenList(None));
  }

  /** Lists and items opened down to depth `target`. */
  method OpenDown(before: seq<Tag>, was: seq<bool>, target: nat, ghost filled: bool, ghost name: nat, ghost met: seq<Met>, ghost bound: nat)
    returns (out: seq<Tag>, items: seq<bool>, ghost full: bool)
    requires Stands(before, was, filled, name, met) && |was| <= target
    requires |was| == target ==> !was[|was| - 1]
    requires Deeper(before, before, was, bound)
    ensures Stands(out, items, full, name, met) && |items| == target && !items[|items| - 1]
    ensures Deeper(before, out, items, bound)
  {
    out, items, full := before, was, filled;
    assert Nested(items);
    hide Checked, Scanned, Full, ListStack, Walked, Deeper, Stands;
    while |items| < target
      invariant Nested(items) && Stands(out, items, full, name, met) && |items| <= target
      invariant |items| == target ==> !items[|items| - 1]
      invariant Deeper(before, out, items, bound)
      decreases target - |items|
    {
      if !items[|items| - 1] {
        InnerBegun(out, items, full, name, met);
        DeeperTag(before, out, items, bound, OpenItem);
        out := out + [OpenItem];
        items := items[|items| - 1 := true];
      } else {
        InnerStands(out, items, full, name, met);
      }
      DeeperTag(before, out, items, bound, OpenList(None));
      out := out + [OpenList(None)];
      items := items + [false];
      full := false;
    }
  }

  lemma DeeperStart(before: seq<Tag>, out: seq<Tag>, items: seq<bool>)
    requires Shut(before, out, items) && |out| >= |before|
    ensures Deeper(out, out, items, |before|)
  {
  }

  lemma DeeperStack(name: nat, n: nat)
    requires n > 0
    ensures ListStack(name, n + 1) == ListStack(name, n) + [None]
  {
  }

  /** One list paragraph: lists and items closed and opened until its item
      stands at its depth. */
  method Item(before: seq<Tag>, was: seq<bool>, target: nat, para: Tag, ghost filled: bool, ghost name: nat, ghost met: seq<Met>)
    returns (out: seq<Tag>, items: seq<bool>)
    requires Stands(before, was, filled, name, met) && target > 0 && para.Para?
    requires was[|was| - 1] || |was| == 1
    requires |Walked(before).open| == Depth(was)
    ensures |items| == target && Stands(out, items, true, name, met + [Met(para.look, Some(name), target, para.content)])
    ensures items[|items| - 1] && Put(before, out, target)
  {
    hide Checked, Scanned, Full, ListStack, Walked, Depth, Shut, Put, AtLeast;
    ghost var full: bool;
    out, items, full := CloseDown(before, was, target, filled, name, met);
    ghost var shut, mid := out, items;
    DeeperStart(before, shut, mid);
    out, items, full := OpenDown(out, items, target, full, name, met, |before|);
    PutAt(before, was, shut, mid, out, items, para);
    ItemBegun(out, items, full, name, met);
    ItemFilled(out + [OpenItem], target, para);
    Appended(out + [OpenItem], para);
    StackName(name, target);
    out := out + [OpenItem] + [para];
    items := items[|items| - 1 := true];
    AllOpen(items, true);
  }

  /** Where the printer stands in the block begun at `i`: the next paragraph
      goes in what the last one stands in, the first in a list begun after all
      that was. */
  ghost predicate InBlock(out: seq<Tag>, styles: seq<ParaStyle>, items: seq<bool>, i: nat, j: nat) {
    && items != [] && NestedAs(styles, Walked(out).at)
    && |Walked(out).at| == j && |Walked(out).open| == Depth(items)
    && (j == i ==> |items| == 1 && !items[0] && AllUnder(Walked(out).at, Walked(out).open[0]))
    && (j > i ==> Walked(out).open == Walked(out).at[j - 1])
  }

  lemma BlockBegun(before: seq<Tag>, styles: seq<ParaStyle>, i: nat, name: nat)
    requires Walked(before).open == [] && NestedAs(styles, Walked(before).at) && |Walked(before).at| == i
    ensures InBlock(before + [OpenList(Some(name))], styles, [false], i, i)
  {
    WalkMore(before, OpenList(Some(name)));
    WalkUnder(before);
  }

  lemma PutNested(before: seq<Tag>, out: seq<Tag>, styles: seq<ParaStyle>, was: seq<bool>, items: seq<bool>, i: nat, j: nat)
    requires i <= j < |styles| && InBlock(before, styles, was, i, j) && styles[j].bullet != NoBullet
    requires i == 0 || styles[i - 1].bullet == NoBullet
    requires Put(before, out, styles[j].level + 1) && |items| == styles[j].level + 1 && items[|items| - 1]
    ensures InBlock(out, styles, items, i, j + 1)
  {
    var at := Walked(before).at;
    var b := Walked(out).open;
    hide Walked;
    WalkUnder(before);
    assert |b| == Height(styles[j]);
    if j == i {
      assert Walked(before).open[..1][0] == b[..1][0];
      NestedMore(styles, at, b, b[0]);
    } else {
      assert Shared(at + [b], j) == Least(|Walked(before).open|, 2 * (styles[j].level + 1) - 1);
      NestedMore(styles, at, b, |before|);
    }
  }

  lemma ClosedWalk(out: seq<Tag>)
    requires |Walked(out).open| >= 2
    ensures var less := Walked(out + [CloseItem] + [CloseList]);
            less.at == Walked(out).at && |less.open| == |Walked(out).open| - 2
  {
    WalkMore(out, CloseItem);
    WalkMore(out + [CloseItem], CloseList);
  }

  lemma PlainNested(out: seq<Tag>, styles: seq<ParaStyle>, para: Tag)
    requires Walked(out).open == [] && NestedAs(styles, Walked(out).at) && para.Para?
    requires var i := |Walked(out).at|; i < |styles| && styles[i].bullet == NoBullet
    ensures Walked(out + [para]).open == [] && NestedAs(styles, Walked(out + [para]).at)
    ensures |Walked(out + [para]).at| == |Walked(out).at| + 1
  {
    WalkMore(out, para);
    WalkUnder(out);
    NestedMore(styles, Walked(out).at, [], |out|);
  }

  class TextStyles {
    var paras: seq<ParaStyle>
    var lists: seq<seq<Level>>

    constructor ()
      ensures paras == [] && lists == []
    {
      paras, lists := [], [];
    }

    /** A paragraph style's number, if it is not the default. */
    method ParaName(st: ParaStyle) returns (look: Option<nat>)
      modifies this`paras
      ensures old(paras) <= paras && LookIs(look, Key(st), paras)
    {
      if Key(st) == DEFAULT_PARA {
        return None;
      }
      var n: nat;
      paras, n := IndexIn(paras, Key(st));
      look := Some(n);
    }

    /** The number of the list style a block's levels make. */
    method ListName(styles: seq<ParaStyle>, i: nat, end: nat) returns (name: nat)
      requires i <= end <= |styles|
      modifies this`lists
      ensures old(lists) <= lists && 0 < name <= |lists| && LevelsOf(lists[name - 1], styles, i, end) && Rising(lists[name - 1])
    {
      var levels: seq<Level> := [];
      var j := i;
      while j < end
        invariant i <= j <= end && lists == old(lists)
        invariant Distinct(levels) && LevelsOf(levels, styles, i, j)
      {
        LevelsMore(levels, styles, i, j);
        if Lookup(levels, styles[j].level).None? {
          DistinctAdded(levels, LevelOf(styles[j]));
          levels := levels + [LevelOf(styles[j])];
        }
        j := j + 1;
      }
      forall l
        ensures Lookup(SortByLevel(levels), l) == Lookup(levels, l)
      {
        SortKeeps(levels, l);
      }
      SortRises(levels);
      lists, name := IndexIn(lists, SortByLevel(levels));
    }

    /** A block of list paragraphs, `styles[i..end]`, as one list. */
    method Block(before: seq<Tag>, styles: seq<ParaStyle>, inner: seq<string>, i: nat, end: nat, ghost met: seq<Met>)
      returns (out: seq<Tag>, ghost after: seq<Met>)
      requires |inner| == |styles| && i < end <= |styles|
      requires i == 0 || styles[i - 1].bullet == NoBullet
      requires forall k :: i <= k < end ==> styles[k].bullet != NoBullet
      requires Checked(before) == Some([]) && Scanned(before) == Scan([], met)
      requires |met| == i && forall j :: 0 <= j < i ==> MetIs(met[j], styles, j, inner[j], paras, lists)
      requires Walked(before).open == [] && NestedAs(styles, Walked(before).at) && |Walked(before).at| == i
      modifies this
      ensures old(paras) <= paras && old(lists) <= lists
      ensures Checked(out) == Some([]) && Scanned(out) == Scan([], after)
      ensures |after| == end && forall j :: 0 <= j < end ==> MetIs(after[j], styles, j, inner[j], paras, lists)
      ensures Walked(out).open == [] && NestedAs(styles, Walked(out).at) && |Walked(out).at| == end
    {
      hide Checked, Scanned, Full, ListStack, Stands, Read, Expected, BlockStart, FirstAt, Walked, Put, NestedAs, AllUnder;
      var name := ListName(styles, i, end);
      MetStay(met, styles, inner, i, old(paras), old(lists), paras, lists);
      out := before + [OpenList(Some(name))];
      var items := [false];
      after := met;
      ghost var filled := false;
      ListBegun(before, name, met);
      BlockBegun(before, styles, i, name);
      var j := i;
      while j < end
        invariant i <= j <= end && old(paras) <= paras && old(lists) <= lists
        invariant 0 < name <= |lists| && LevelsOf(lists[name - 1], styles, i, end)
        invariant Stands(out, items, filled, name, after) && StackTop(items, j > i) && (j > i ==> filled)
        invariant |after| == j && forall k :: 0 <= k < j ==> MetIs(after[k], styles, k, inner[k], paras, lists)
        invariant InBlock(out, styles, items, i, j)
      {
        ghost var was := paras;
        var look := ParaName(styles[j]);
        MetStay(after, styles, inner, j, was, lists, paras, lists);
        ghost var outer, open := out, items;
        out, items := Item(out, items, styles[j].level + 1, Para(look, inner[j]), filled, name, after);
        PutNested(outer, out, styles, open, items, i, j);
        filled := true;
        after := after + [Met(look, Some(name), styles[j].level + 1, inner[j])];
        BlockStartIs(styles, i, j);
        FirstLevel(styles, i, j, end, lists[name - 1]);
        j := j + 1;
      }
      while items != []
        invariant |Walked(out).open| == 2 * |items| && NestedAs(styles, Walked(out).at) && |Walked(out).at| == end
        invariant items != [] ==> Stands(out, items, true, name, after) && items[|items| - 1]
        invariant items == [] ==> Checked(out) == Some([]) && Scanned(out) == Scan([], after)
        invariant old(paras) <= paras && old(lists) <= lists && |after| == end
        invariant forall k :: 0 <= k < end ==> MetIs(after[k], styles, k, inner[k], paras, lists)
        decreases |items|
      {
        ClosedMore(out, items, name, after);
        ClosedWalk(out);
        out := out + [CloseItem] + [CloseList];
        items := items[..|items| - 1];
      }
    }

    /** The paragraphs of a box: well formed, and each read back as expected. */
    method Paragraphs(styles: seq<ParaStyle>, inner: seq<string>) returns (out: seq<Tag>)
      requires |inner| == |styles|
      modifies this
      ensures old(paras) <= paras && old(lists) <= lists
      ensures Checked(out) == Some([]) && Scanned(out).lists == []
      ensures var met := Scanned(out).met;
              && |met| == |styles|
              && (forall i :: 0 <= i < |styles| ==> met[i].content == inner[i])
              && (forall i :: 0 <= i < |styles| && (styles[i].bullet == NoBullet || styles[i].level <= 8) ==>
                    Read(met[i], paras, lists) == Expected(styles, i))
              && (forall i :: 0 <= i < |styles| && styles[i].bullet != NoBullet && styles[i].level > 8 ==>
                    Read(met[i], paras, lists).level == 8)
      ensures |Walked(out).at| == |styles| && NestedAs(styles, Walked(out).at)
    {
      hide Read, Expected, BlockStart, FirstAt, MetIs, LookIs, LevelsOf, Checked, Scanned, Walked, NestedAs;
      out := [];
      var i := 0;
      ghost var met: seq<Met> := [];
      NothingYet();
      while i < |inner|
        invariant 0 <= i <= |inner| && old(paras) <= paras && old(lists) <= lists
        invariant Checked(out) == Some([]) && Scanned(out) == Scan([], met)
        invariant |met| == i && forall j :: 0 <= j < i ==> MetIs(met[j], styles, j, inner[j], paras, lists)
        invariant Walked(out).open == [] && NestedAs(styles, Walked(out).at) && |Walked(out).at| == i
        invariant 0 < i < |inner| && styles[i].bullet != NoBullet ==> styles[i - 1].bullet == NoBullet
      {
        if styles[i].bullet == NoBullet {
          ghost var was := paras;
          var look := ParaName(styles[i]);
          MetStay(met, styles, inner, i, was, lists, paras, lists);
          Appended(out, Para(look, inner[i]));
          PlainNested(out, styles, Para(look, inner[i]));
          PlainMet(look, styles, i, inner[i], paras, lists);
          out := out + [Para(look, inner[i])];
          met := met + [Met(look, None, 0, inner[i])];
          i := i + 1;
        } else {
          var end := i + 1;
          while end < |inner| && styles[end].bullet != NoBullet
            invariant i < end <= |inner| && forall k :: i <= k < end ==> styles[k].bullet != NoBullet
          {
            end := end + 1;
          }
          out, met := Block(out, styles, inner, i, end, met);
          i := end;
        }
      }
      AllRead(met, styles, inner, paras, lists);
    }
  }

  lemma NothingYet()
    ensures Checked([]) == Some([]) && Scanned([]) == Scan([], []) && Walked([]) == Walk([], [])
    ensures forall styles :: NestedAs(styles, [])
  {
  }

  /** Paragraphs met as they should be read back as expected. */
  lemma AllRead(met: seq<Met>, styles: seq<ParaStyle>, inner: seq<string>, paras: seq<ParaStyle>, lists: seq<seq<Level>>)
    requires |met| == |styles| == |inner| && forall j :: 0 <= j < |styles| ==> MetIs(met[j], styles, j, inner[j], paras, lists)
    ensures forall i :: 0 <= i < |styles| ==> met[i].content == inner[i]
    ensures forall i :: 0 <= i < |styles| && (styles[i].bullet == NoBullet || styles[i].level <= 8) ==>
              Read(met[i], paras, lists) == Expected(styles, i)
    ensures forall i :: 0 <= i < |styles| && styles[i].bullet != NoBullet && styles[i].level > 8 ==>
              Read(met[i], paras, lists).level == 8
  {
    hide Read, Expected, LookIs;
    forall j | 0 <= j < |styles| && (styles[j].bullet == NoBullet || styles[j].level <= 8)
      ensures Read(met[j], paras, lists) == Expected(styles, j)
    {
      ReadsBack(met[j], styles, j, inner[j], paras, lists);
    }
    forall j | 0 <= j < |styles| && styles[j].bullet != NoBullet && styles[j].level > 8
      ensures Read(met[j], paras, lists).level == 8
    {
      TooDeep(met[j], styles, j, inner[j], paras, lists);
    }
  }

  lemma PlainMet(look: Option<nat>, styles: seq<ParaStyle>, j: nat, content: string, paras: seq<ParaStyle>, lists: seq<seq<Level>>)
    requires j < |styles| && styles[j].bullet == NoBullet && LookIs(look, Key(styles[j]), paras)
    ensures MetIs(Met(look, None, 0, content), styles, j, content, paras, lists)
  {
  }

  ghost predicate StackTop(items: seq<bool>, some: bool) {
    items != [] && if some then items[|items| - 1] else |items| == 1
  }

  lemma ListBegun(before: seq<Tag>, name: nat, met: seq<Met>)
    requires Checked(before) == Some([]) && Scanned(before) == Scan([], met)
    ensures Stands(before + [OpenList(Some(name))], [false], false, name, met)
  {
    Appended(before, OpenList(Some(name)));
  }

  /** Growing tables leave what was met as it was. */
  lemma MetStay(met: seq<Met>, styles: seq<ParaStyle>, inner: seq<string>, n: nat, paras: seq<ParaStyle>, lists: seq<seq<Level>>,
                paras': seq<ParaStyle>, lists': seq<seq<Level>>)
    requires n <= |styles| == |inner| && |met| == n && paras <= paras' && lists <= lists'
    requires forall j :: 0 <= j < n ==> MetIs(met[j], styles, j, inner[j], paras, lists)
    ensures forall j :: 0 <= j < n ==> MetIs(met[j], styles, j, inner[j], paras', lists')
  {
    hide First;
  }

  lemma FirstLevel(styles: seq<ParaStyle>, i: nat, j: nat, end: nat, levels: seq<Level>)
    requires i <= j < end <= |styles| && BlockStart(styles, j) == i && LevelsOf(levels, styles, i, end)
    ensures Lookup(levels, styles[j].level) == Some(LevelOf(styles[First(styles, j)]))
  {
  }

  lemma ClosedMore(out: seq<Tag>, items: seq<bool>, name: nat, met: seq<Met>)
    requires Stands(out, items, true, name, met) && items[|items| - 1]
    ensures var less := out + [CloseItem] + [CloseList];
            if |items| == 1 then Checked(less) == Some([]) && Scanned(less) == Scan([], met)
            else Stands(less, items[..|items| - 1], true, name, met) && items[|items| - 2]
  {
    ListClosed(out, items, true, name, met);
    if |items| > 1 {
      StackLess(name, |items|);
      AllOpen(items[..|items| - 1], true);
    }
  }

  // ---------------------------------------------------------------- when a style comes back whole

  /** The marker a paragraph states is the one its level was given, and one
      the reader can name (or is numbering, and the name the reader has for its
      level's); and its indents are not left to the level. */
  ghost predicate Carried(styles: seq<ParaStyle>, i: nat)
    requires i < |styles|
  {
    var st, first := styles[i], styles[First(styles, i)];
    if st.bullet == NoBullet then st.level == 0
    else
      && (if st.bullet == first.bullet then Nameable(st.bullet)
          else first.bullet.AutoNum? && st.bullet == AsRead(first.bullet))
      && (st.marginLeft == 0.0 ==> first.marginLeft == 0.0)
      && (st.indent == 0.0 ==> first.indent == 0.0)
  }

  lemma CarriedWhole(styles: seq<ParaStyle>, i: nat)
    requires i < |styles|
    ensures Expected(styles, i) == styles[i] <==> Carried(styles, i)
  {
    hide NumFormat, SchemeOf, Canonical, BlockStart, FirstAt;
    MarkerComesBack(styles[i].bullet);
  }

  /** List paragraphs of one block, at one level. */
  predicate OneLevel(styles: seq<ParaStyle>, j: nat, k: nat)
    requires j < |styles| && k < |styles|
  {
    styles[k].bullet != NoBullet && styles[j].level == styles[k].level && BlockStart(styles, j) == BlockStart(styles, k)
  }

  /** Where every two paragraphs of one level in a block state the same marker
      and indents, and plain ones have no level, a style comes back whole
      exactly when the reader can name its marker. */
  lemma AlikeComeBack(styles: seq<ParaStyle>, i: nat)
    requires i < |styles|
    requires forall j :: 0 <= j < |styles| && styles[j].bullet == NoBullet ==> styles[j].level == 0
    requires forall j, k ::
      0 <= j < k < |styles| && OneLevel(styles, j, k) ==> LevelOf(styles[j]) == LevelOf(styles[k])
    ensures Expected(styles, i) == styles[i] <==> Nameable(styles[i].bullet)
  {
    hide NumFormat, SchemeOf, Canonical;
    MarkerComesBack(styles[i].bullet);
    if styles[i].bullet != NoBullet {
      var f := First(styles, i);
      var b := BlockStart(styles, i);
      if f < i {
        FirstInBlock(styles, i);
        assert LevelOf(styles[f]) == LevelOf(styles[i]);
      }
    }
  }

  lemma {:induction false} StartIsEdge(styles: seq<ParaStyle>, i: nat)
    requires i < |styles| && styles[i].bullet != NoBullet
    ensures var b := BlockStart(styles, i); b == 0 || styles[b - 1].bullet == NoBullet
  {
    if i > 0 && styles[i - 1].bullet != NoBullet {
      StartIsEdge(styles, i - 1);
    }
  }

  lemma FirstInBlock(styles: seq<ParaStyle>, i: nat)
    requires i < |styles| && styles[i].bullet != NoBullet
    ensures var f := First(styles, i);
            styles[f].level == styles[i].level && styles[f].bullet != NoBullet && BlockStart(styles, f) == BlockStart(styles, i)
  {
    StartIsEdge(styles, i);
    BlockStartIs(styles, BlockStart(styles, i), First(styles, i));
  }
}
