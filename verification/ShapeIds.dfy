/** Ids put on the shapes of a page that has builds: a scan of the printed
    markup that must find the top-level elements, one for each object. */
module ShapeIds {
  // ---------------------------------------------------------------- the scan

  /** How far `s` goes before a character of `stop`. */
  function Before(s: string, stop: set<char>): (n: nat)
    ensures n <= |s| && (n < |s| ==> s[n] in stop)
    ensures forall k :: 0 <= k < n ==> s[k] !in stop
  {
    if s == [] || s[0] in stop then 0 else 1 + Before(s[1..], stop)
  }

  /** Where the text of the tag `s` begins with ends. */
  function TagLength(s: string): (n: nat)
    requires s != []
    ensures 0 < n <= |s|
  {
    var end := Before(s, {'>'});
    if end < |s| then end + 1 else |s|
  }

  predicate ClosesItself(s: string)
    requires s != [] && s[0] == '<'
  {
    var end := Before(s, {'>'});
    assert end > 0;
    s[end - 1] == '/'
  }

  predicate Closing(s: string) {
    |s| > 1 && s[1] == '/'
  }

  function Slice(s: string, i: nat, j: nat): string
    requires j <= |s|
  {
    if i < j then s[i..j] else ""
  }

  /** What the scan makes of `s`, at `depth`, with `i` of `count` ids given;
      `mark` is the text of the `i`-th. */
  function WithIdsFrom(s: string, count: nat, mark: nat -> string, depth: nat, i: nat): string
    decreases |s|
  {
    if s == [] then []
    else if s[0] == '<' then
      var n := TagLength(s);
      var deeper := if Closing(s) then (if depth > 0 then depth - 1 else 0)
                    else if ClosesItself(s) then depth else depth + 1;
      if !Closing(s) && depth == 0 && i < count then
        var name := Before(s, {' ', '>', '/'});
        s[..name] + mark(i) + Slice(s, name, n) + WithIdsFrom(s[n..], count, mark, deeper, i + 1)
      else s[..n] + WithIdsFrom(s[n..], count, mark, deeper, i)
    else
      var n := Before(s, {'<'});
      s[..n] + WithIdsFrom(s[n..], count, mark, depth, i)
  }

  /** `with_ids`. */
  method WithIds(shapes: string, count: nat, mark: nat -> string) returns (out: string)
    ensures out == WithIdsFrom(shapes, count, mark, 0, 0)
  {
    hide WithIdsFrom, TagLength, ClosesItself, Closing, Before;
    out := "";
    var depth: nat, i: nat, k: nat := 0, 0, 0;
    assert shapes[0..] == shapes;
    while k < |shapes|
      invariant k <= |shapes|
      invariant out + WithIdsFrom(shapes[k..], count, mark, depth, i) == WithIdsFrom(shapes, count, mark, 0, 0)
    {
      var rest := shapes[k..];
      var n: nat;
      if rest[0] == '<' {
        n := TagLength(rest);
        TagFrom(rest, count, mark, depth, i);
        var deeper := if Closing(rest) then (if depth > 0 then depth - 1 else 0) else if ClosesItself(rest) then depth else depth + 1;
        if !Closing(rest) && depth == 0 && i < count {
          var name := Before(rest, {' ', '>', '/'});
          Joined(out, rest[..name] + mark(i) + Slice(rest, name, n), WithIdsFrom(rest[n..], count, mark, deeper, i + 1));
          out := out + (rest[..name] + mark(i) + Slice(rest, name, n));
          i := i + 1;
        } else {
          Joined(out, rest[..n], WithIdsFrom(rest[n..], count, mark, deeper, i));
          out := out + rest[..n];
        }
        depth := deeper;
      } else {
        n := Before(rest, {'<'});
        TextFrom(rest, count, mark, depth, i);
        Joined(out, rest[..n], WithIdsFrom(rest[n..], count, mark, depth, i));
        out := out + rest[..n];
      }
      assert rest[n..] == shapes[k + n..];
      k := k + n;
    }
    assert shapes[k..] == "";
    NothingFrom(count, mark, depth, i);
    assert out + "" == out;
  }

  lemma Joined(a: string, b: string, c: string)
    ensures (a + b) + c == a + (b + c)
  {
  }

  lemma NothingFrom(count: nat, mark: nat -> string, depth: nat, i: nat)
    ensures WithIdsFrom("", count, mark, depth, i) == ""
  {
  }

  lemma TagFrom(s: string, count: nat, mark: nat -> string, depth: nat, i: nat)
    requires s != "" && s[0] == '<'
    ensures var n := TagLength(s);
            var deeper := if Closing(s) then (if depth > 0 then depth - 1 else 0) else if ClosesItself(s) then depth else depth + 1;
            WithIdsFrom(s, count, mark, depth, i) ==
            if !Closing(s) && depth == 0 && i < count then
              var name := Before(s, {' ', '>', '/'});
              (s[..name] + mark(i) + Slice(s, name, n)) + WithIdsFrom(s[n..], count, mark, deeper, i + 1)
            else s[..n] + WithIdsFrom(s[n..], count, mark, deeper, i)
  {
  }

  lemma TextFrom(s: string, count: nat, mark: nat -> string, depth: nat, i: nat)
    requires s != "" && s[0] != '<'
    ensures var n := Before(s, {'<'});
            0 < n && WithIdsFrom(s, count, mark, depth, i) == s[..n] + WithIdsFrom(s[n..], count, mark, depth, i)
  {
  }

  // ---------------------------------------------------------------- printed shapes

  /** Markup as the shapes are printed: text, empty elements, and elements
      with others in them. */
  datatype Nodes =
    | End
    | Chars(text: string, next: Nodes)
    | Empty(name: string, attrs: string, next: Nodes)
    | Element(name: string, attrs: string, kids: Nodes, next: Nodes)

  function StartTag(name: string, attrs: string, slash: string): string {
    "<" + (name + attrs + slash) + ">"
  }

  function EndTag(name: string): string {
    "<" + ("/" + name) + ">"
  }

  function Written(x: Nodes): string {
    match x
    case End => ""
    case Chars(text, next) => text + Written(next)
    case Empty(name, attrs, next) => StartTag(name, attrs, "/") + Written(next)
    case Element(name, attrs, kids, next) => StartTag(name, attrs, "") + (Written(kids) + (EndTag(name) + Written(next)))
  }

  predicate Plain(s: string, stop: set<char>) {
    forall k :: 0 <= k < |s| ==> s[k] !in stop
  }

  /** A name; and attributes, if any, a space first and a quote last, with
      `>` escaped. */
  predicate WellMadeStart(name: string, attrs: string) {
    && name != "" && Plain(name, {' ', '>', '/'})
    && Plain(attrs, {'>'}) && (attrs != "" ==> attrs[0] == ' ' && attrs[|attrs| - 1] != '/')
  }

  predicate WellMade(x: Nodes) {
    match x
    case End => true
    case Chars(text, next) => Plain(text, {'<'}) && WellMade(next)
    case Empty(name, attrs, next) => WellMadeStart(name, attrs) && WellMade(next)
    case Element(name, attrs, kids, next) => WellMadeStart(name, attrs) && WellMade(kids) && WellMade(next)
  }

  /** The top-level elements, as many as there are ids from the `i`-th on,
      each with its own id first among its attributes; and nothing else. */
  function Marked(x: Nodes, count: nat, mark: nat -> string, i: nat): Nodes {
    match x
    case End => End
    case Chars(text, next) => Chars(text, Marked(next, count, mark, i))
    case Empty(name, attrs, next) => Empty(name, With(attrs, count, mark, i), Marked(next, count, mark, Next(count, i)))
    case Element(name, attrs, kids, next) =>
      Element(name, With(attrs, count, mark, i), kids, Marked(next, count, mark, Next(count, i)))
  }

  function With(attrs: string, count: nat, mark: nat -> string, i: nat): string {
    if i < count then mark(i) + attrs else attrs
  }

  function Next(count: nat, i: nat): nat {
    if i < count then i + 1 else i
  }

  /** The next id once `x` has its own. */
  function Used(x: Nodes, count: nat, i: nat): nat {
    match x
    case End => i
    case Chars(_, next) => Used(next, count, i)
    case Empty(_, _, next) => Used(next, count, Next(count, i))
    case Element(_, _, _, next) => Used(next, count, Next(count, i))
  }

  lemma BeforeIs(a: string, c: char, rest: string, stop: set<char>)
    requires Plain(a, stop) && c in stop
    ensures Before(a + ([c] + rest), stop) == |a|
  {
    var s := a + ([c] + rest);
    assert s[|a|] == c && forall k :: 0 <= k < |a| ==> s[k] == a[k];
  }

  /** A printed tag is met whole. */
  lemma TagMet(inside: string, rest: string)
    requires Plain(inside, {'>'})
    ensures var s := "<" + inside + ">" + rest;
            TagLength(s) == |inside| + 2 && s[..|inside| + 2] == "<" + inside + ">" && s[|inside| + 2..] == rest
            && (ClosesItself(s) <==> inside != "" && inside[|inside| - 1] == '/') && (Closing(s) <==> inside != "" && inside[0] == '/' )
  {
    var s := "<" + inside + ">" + rest;
    assert s == ("<" + inside) + ([">"[0]] + rest);
    BeforeIs("<" + inside, '>', rest, {'>'});
  }

  lemma TextPass(text: string, rest: string, count: nat, mark: nat -> string, depth: nat, i: nat)
    requires Plain(text, {'<'})
    ensures WithIdsFrom(text + rest, count, mark, depth, i) == text + WithIdsFrom(rest, count, mark, depth, i)
  {
    hide WithIdsFrom;
    var s := text + rest;
    if text == "" {
      assert s == rest;
    } else {
      assert s[0] == text[0];
      TextFrom(s, count, mark, depth, i);
      var n, m := Before(s, {'<'}), Before(rest, {'<'});
      assert n == |text| + m by {
        assert forall k :: 0 <= k < |text| ==> s[k] == text[k];
        assert forall k :: 0 <= k < |rest| ==> s[|text| + k] == rest[k];
      }
      assert s[..n] == text + rest[..m] && s[n..] == rest[m..];
      if m > 0 {
        TextFrom(rest, count, mark, depth, i);
      } else {
        assert rest[..0] == "" && rest[0..] == rest;
      }
    }
  }

  /** Where the name of a tag ends, and what follows it. */
  lemma TagParts(name: string, attrs: string, slash: string, rest: string)
    requires WellMadeStart(name, attrs) && (slash == "" || slash == "/")
    ensures var s := StartTag(name, attrs, slash) + rest;
            var n := |name| + |attrs| + |slash| + 2;
            && TagLength(s) == n && s[..n] == StartTag(name, attrs, slash) && s[n..] == rest && s[0] == '<'
            && !Closing(s) && (ClosesItself(s) <==> slash == "/")
            && Before(s, {' ', '>', '/'}) == |name| + 1
            && s[..|name| + 1] == "<" + name && Slice(s, |name| + 1, n) == attrs + slash + ">"
  {
    hide Before, Slice, TagLength, Closing, ClosesItself;
    InsideEnds(name, attrs, slash);
    TagMet(name + attrs + slash, rest);
    NameMet(name, attrs + slash + ">" + rest);
    TagCut(name, attrs + slash + ">", rest);
    assert StartTag(name, attrs, slash) == "<" + name + (attrs + slash + ">");
    assert (attrs + slash + ">") + rest == attrs + slash + ">" + rest;
  }

  lemma InsideEnds(name: string, attrs: string, slash: string)
    requires WellMadeStart(name, attrs) && (slash == "" || slash == "/")
    ensures var inside := name + attrs + slash;
            Plain(inside, {'>'}) && inside != "" && inside[0] != '/' && (inside[|inside| - 1] == '/' <==> slash == "/")
  {
  }

  lemma TagCut(name: string, more: string, rest: string)
    ensures var s := "<" + name + more + rest;
            s == "<" + name + (more + rest) && s[..|name| + 1] == "<" + name && Slice(s, |name| + 1, |name| + |more| + 1) == more
  {
  }

  lemma MarkedTag(name: string, attrs: string, slash: string, m: string)
    ensures ("<" + name) + m + (attrs + slash + ">") == StartTag(name, m + attrs, slash)
  {
  }

  /** A start tag, or an empty element's: at the top it gets the next id. */
  lemma StartPass(name: string, attrs: string, slash: string, rest: string, count: nat, mark: nat -> string, depth: nat, i: nat)
    requires WellMadeStart(name, attrs) && (slash == "" || slash == "/")
    ensures var top := depth == 0;
            WithIdsFrom(StartTag(name, attrs, slash) + rest, count, mark, depth, i) ==
            StartTag(name, if top then With(attrs, count, mark, i) else attrs, slash) +
            WithIdsFrom(rest, count, mark, if slash == "" then depth + 1 else depth, if top then Next(count, i) else i)
  {
    hide WithIdsFrom, StartTag, TagLength, Slice, Closing, ClosesItself, Before;
    var s, n := StartTag(name, attrs, slash) + rest, |name| + |attrs| + |slash| + 2;
    TagParts(name, attrs, slash, rest);
    TagFrom(s, count, mark, depth, i);
    if depth == 0 && i < count {
      MarkedTag(name, attrs, slash, mark(i));
      assert s[..|name| + 1] + mark(i) + Slice(s, |name| + 1, n) == StartTag(name, With(attrs, count, mark, i), slash);
    } else {
      assert s[..n] == StartTag(name, attrs, slash);
    }
  }

  lemma NameMet(name: string, rest: string)
    requires Plain(name, {' ', '>', '/'}) && rest != "" && rest[0] in {' ', '>', '/'}
    ensures Before("<" + name + rest, {' ', '>', '/'}) == |name| + 1
  {
    assert "<" + name + rest == ("<" + name) + ([rest[0]] + rest[1..]);
    BeforeIs("<" + name, rest[0], rest[1..], {' ', '>', '/'});
  }

  lemma EndPass(name: string, rest: string, count: nat, mark: nat -> string, depth: nat, i: nat)
    requires Plain(name, {' ', '>', '/'}) && depth > 0
    ensures WithIdsFrom(EndTag(name) + rest, count, mark, depth, i) == EndTag(name) + WithIdsFrom(rest, count, mark, depth - 1, i)
  {
    hide WithIdsFrom;
    TagMet("/" + name, rest);
    TagFrom(EndTag(name) + rest, count, mark, depth, i);
  }

  lemma Spread(a: string, b: string, c: string, d: string, rest: string)
    ensures (a + (b + (c + d))) + rest == a + (b + (c + (d + rest)))
  {
  }

  /** Inside an element nothing is marked, and the scan comes out as deep as
      it went in. */
  lemma {:induction false} InsideStays(x: Nodes, rest: string, count: nat, mark: nat -> string, depth: nat, i: nat)
    requires WellMade(x) && depth > 0
    ensures WithIdsFrom(Written(x) + rest, count, mark, depth, i) == Written(x) + WithIdsFrom(rest, count, mark, depth, i)
    decreases x
  {
    hide WithIdsFrom, StartTag, EndTag;
    var done := WithIdsFrom(rest, count, mark, depth, i);
    match x
    case End =>
      assert "" + rest == rest && "" + done == done;
    case Chars(text, next) =>
      Joined(text, Written(next), rest);
      TextPass(text, Written(next) + rest, count, mark, depth, i);
      InsideStays(next, rest, count, mark, depth, i);
      Joined(text, Written(next), done);
    case Empty(name, attrs, next) =>
      Joined(StartTag(name, attrs, "/"), Written(next), rest);
      StartPass(name, attrs, "/", Written(next) + rest, count, mark, depth, i);
      InsideStays(next, rest, count, mark, depth, i);
      Joined(StartTag(name, attrs, "/"), Written(next), done);
    case Element(name, attrs, kids, next) =>
      var after := EndTag(name) + (Written(next) + rest);
      Spread(StartTag(name, attrs, ""), Written(kids), EndTag(name), Written(next), rest);
      StartPass(name, attrs, "", Written(kids) + after, count, mark, depth, i);
      InsideStays(kids, after, count, mark, depth + 1, i);
      EndPass(name, Written(next) + rest, count, mark, depth + 1, i);
      InsideStays(next, rest, count, mark, depth, i);
      Spread(StartTag(name, attrs, ""), Written(kids), EndTag(name), Written(next), done);
  }

  lemma {:induction false} TopMarked(x: Nodes, rest: string, count: nat, mark: nat -> string, i: nat)
    requires WellMade(x)
    ensures WithIdsFrom(Written(x) + rest, count, mark, 0, i) ==
            Written(Marked(x, count, mark, i)) + WithIdsFrom(rest, count, mark, 0, Used(x, count, i))
    decreases x
  {
    hide WithIdsFrom, StartTag, EndTag;
    var done := WithIdsFrom(rest, count, mark, 0, Used(x, count, i));
    match x
    case End =>
      assert "" + rest == rest && "" + done == done;
    case Chars(text, next) =>
      Joined(text, Written(next), rest);
      TextPass(text, Written(next) + rest, count, mark, 0, i);
      TopMarked(next, rest, count, mark, i);
      Joined(text, Written(Marked(next, count, mark, i)), done);
    case Empty(name, attrs, next) =>
      Joined(StartTag(name, attrs, "/"), Written(next), rest);
      StartPass(name, attrs, "/", Written(next) + rest, count, mark, 0, i);
      TopMarked(next, rest, count, mark, Next(count, i));
      Joined(StartTag(name, With(attrs, count, mark, i), "/"), Written(Marked(next, count, mark, Next(count, i))), done);
    case Element(name, attrs, kids, next) =>
      var after := EndTag(name) + (Written(next) + rest);
      Spread(StartTag(name, attrs, ""), Written(kids), EndTag(name), Written(next), rest);
      StartPass(name, attrs, "", Written(kids) + after, count, mark, 0, i);
      InsideStays(kids, after, count, mark, 1, Next(count, i));
      EndPass(name, Written(next) + rest, count, mark, 1, Next(count, i));
      TopMarked(next, rest, count, mark, Next(count, i));
      Spread(StartTag(name, With(attrs, count, mark, i), ""), Written(kids), EndTag(name),
             Written(Marked(next, count, mark, Next(count, i))), done);
  }

  /** Whatever well-formed markup the shapes print as: the scan gives each
      top-level element its own id, in order, as many as there are ids, and
      changes nothing else. */
  lemma ShapesMarked(x: Nodes, count: nat, mark: nat -> string)
    requires WellMade(x)
    ensures WithIdsFrom(Written(x), count, mark, 0, 0) == Written(Marked(x, count, mark, 0))
  {
    TopMarked(x, "", count, mark, 0);
    assert Written(x) + "" == Written(x) && Written(Marked(x, count, mark, 0)) + "" == Written(Marked(x, count, mark, 0));
  }

  /** The top-level elements: their attributes, and what is in them. */
  function Tops(x: Nodes): seq<(string, Nodes)> {
    match x
    case End => []
    case Chars(_, next) => Tops(next)
    case Empty(_, attrs, next) => [(attrs, End)] + Tops(next)
    case Element(_, attrs, kids, next) => [(attrs, kids)] + Tops(next)
  }

  /** With one top-level element for each object, the `k`-th has the `k`-th
      object's id. */
  lemma {:induction false} EachItsOwn(x: Nodes, count: nat, mark: nat -> string, i: nat, k: nat)
    requires k < |Tops(x)| && i + |Tops(x)| <= count
    ensures |Tops(Marked(x, count, mark, i))| == |Tops(x)|
    ensures Tops(Marked(x, count, mark, i))[k] == (mark(i + k) + Tops(x)[k].0, Tops(x)[k].1)
    decreases x
  {
    match x
    case Chars(_, next) => EachItsOwn(next, count, mark, i, k);
    case Empty(_, _, next) =>
      SameTops(next, count, mark, i + 1);
      if k > 0 {
        EachItsOwn(next, count, mark, i + 1, k - 1);
      }
    case Element(_, _, _, next) =>
      SameTops(next, count, mark, i + 1);
      if k > 0 {
        EachItsOwn(next, count, mark, i + 1, k - 1);
      }
  }

  lemma SameTops(x: Nodes, count: nat, mark: nat -> string, i: nat)
    ensures |Tops(Marked(x, count, mark, i))| == |Tops(x)|
  {
  }
}
