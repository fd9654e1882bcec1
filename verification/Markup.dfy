/** The scanner that finds the start tags of a part, their attributes, and
    the parts their relationships name. */
module Markup {
  import opened Engine

  // ---------------------------------------------------------------- characters and searches

  predicate AsciiWhite(c: char) {
    c == ' ' || c == '\t' || c == '\n' || c == '\r' || c == '\U{000C}'
  }

  predicate White(c: char) {
    || AsciiWhite(c) || c == '\U{000B}' || c == '\U{0085}' || c == '\U{00A0}' || c == '\U{1680}'
    || '\U{2000}' <= c <= '\U{200A}' || c == '\U{2028}' || c == '\U{2029}' || c == '\U{202F}' || c == '\U{205F}' || c == '\U{3000}'
  }

  predicate At(s: string, p: string, i: nat) {
    i + |p| <= |s| && s[i..i + |p|] == p
  }

  /** The first place from `i` on where `p` stands. */
  function FindFrom(s: string, p: string, i: nat): (r: Option<nat>)
    requires i <= |s|
    ensures r.Some? ==> i <= r.value && At(s, p, r.value) && forall j :: i <= j < r.value ==> !At(s, p, j)
    ensures r.None? ==> forall j :: i <= j <= |s| ==> !At(s, p, j)
    decreases |s| - i
  {
    if At(s, p, i) then Some(i) else if i == |s| then None else FindFrom(s, p, i + 1)
  }

  function Find(s: string, p: string): (r: Option<nat>)
    ensures r.Some? && p != "" ==> r.value < |s| && s[r.value] == p[0]
  {
    FindFrom(s, p, 0)
  }

  lemma FindIs(s: string, p: string, i: nat)
    requires At(s, p, i) && forall j :: 0 <= j < i ==> !At(s, p, j)
    ensures Find(s, p) == Some(i)
  {
    var r := Find(s, p);
  }

  /** How many characters `s` begins with that `f` holds of. */
  function Span(s: string, f: char -> bool): (n: nat)
    ensures n <= |s|
    ensures n < |s| ==> !f(s[n])
  {
    if s == "" || !f(s[0]) then 0 else 1 + Span(s[1..], f)
  }

  predicate All(s: string, f: char -> bool) {
    forall i :: 0 <= i < |s| ==> f(s[i])
  }

  lemma {:induction false} SpanIs(a: string, b: string, f: char -> bool)
    requires All(a, f) && (b == "" || !f(b[0]))
    ensures Span(a + b, f) == |a|
  {
    if a == "" {
      assert a + b == b;
    } else {
      assert (a + b)[1..] == a[1..] + b;
      SpanIs(a[1..], b, f);
    }
  }

  function TrimStart(s: string): string {
    s[Span(s, c => White(c))..]
  }

  function TrimEnd(s: string): string {
    if s != "" && White(s[|s| - 1]) then TrimEnd(s[..|s| - 1]) else s
  }

  lemma {:induction false} TrimEndIs(a: string, b: string)
    requires All(b, c => White(c)) && a != "" && !White(a[|a| - 1])
    ensures TrimEnd(a + b) == a
  {
    if b == "" {
      assert a + b == a;
    } else {
      assert (a + b)[..|a + b| - 1] == a + b[..|b| - 1];
      assert White(b[|b| - 1]);
      TrimEndIs(a, b[..|b| - 1]);
    }
  }

  lemma TrimStartIs(a: string, b: string)
    requires All(a, c => White(c)) && (b == "" || !White(b[0]))
    ensures TrimStart(a + b) == b
  {
    SpanIs(a, b, c => White(c));
  }

  /** The part of a name after its last colon. */
  function LocalOf(name: string): string {
    if name == "" then ""
    else if name[|name| - 1] == ':' then ""
    else LocalOf(name[..|name| - 1]) + [name[|name| - 1]]
  }

  // ---------------------------------------------------------------- the scanner

  /** Where the tag `s` starts ends: the first `>` outside quotes. */
  function TagEnd(s: string, quote: Option<char>): (r: Option<nat>)
    ensures r.Some? ==> r.value < |s| && s[r.value] == '>'
  {
    if s == "" then None
    else
      var c := s[0];
      if quote.None? && c == '>' then Some(0)
      else
        var next := if quote.Some? then (if c == quote.value then None else quote) else if c == '"' || c == '\'' then Some(c) else None;
        var rest := TagEnd(s[1..], next);
        if rest.Some? then Some(rest.value + 1) else None
  }

  datatype StartTag = StartTag(qualified: string, local: string, attrs: string)

  /** What stands at a `<`: something to pass over, a start tag, or nothing whole. */
  datatype Step = Pass(n: nat) | Found(tag: StartTag, n: nat) | Stop

  function Passed(end: Option<nat>, length: nat): Step {
    if end.Some? then Pass(end.value + length) else Stop
  }

  function TagOf(inner: string, n: nat): (r: Step)
    ensures !r.Stop? && r.n == n
  {
    if inner != "" && inner[0] == '/' then Pass(n)
    else
      var body := if inner != "" && inner[|inner| - 1] == '/' then TrimEnd(inner[..|inner| - 1]) else inner;
      var split := Span(body, c => !White(c));
      if split == 0 then Pass(n)
      else Found(StartTag(body[..split], LocalOf(body[..split]), TrimStart(body[split..])), n)
  }

  function StepAt(s: string): (r: Step)
    requires s != "" && s[0] == '<'
    ensures r.Pass? || r.Found? ==> 0 < r.n <= |s|
  {
    if At(s, "<![CDATA[", 0) then Passed(Find(s, "]]>"), 3)
    else if At(s, "<!--", 0) then Passed(Find(s, "-->"), 3)
    else if At(s, "<?", 0) then Passed(Find(s, "?>"), 2)
    else
      var end := TagEnd(s, None);
      if end.None? then Stop
      else if At(s, "<!", 0) then Pass(end.value + 1)
      else TagOf(TrimEnd(TrimStart(s[1..end.value])), end.value + 1)
  }

  /** Every start tag, in order. */
  function StartTags(s: string): seq<StartTag>
    decreases |s|
  {
    var i := Find(s, "<");
    if i.None? then []
    else
      match StepAt(s[i.value..])
      case Stop => []
      case Pass(n) => StartTags(s[i.value + n..])
      case Found(tag, n) => [tag] + StartTags(s[i.value + n..])
  }

  lemma TagsFrom(s: string)
    ensures var i := Find(s, "<");
            StartTags(s) ==
              if i.None? || StepAt(s[i.value..]).Stop? then []
              else
                var step := StepAt(s[i.value..]);
                (if step.Found? then [step.tag] + StartTags(s[i.value + step.n..]) else StartTags(s[i.value + step.n..]))
  {
    hide StepAt;
  }

  method ScanTags(xml: string) returns (tags: seq<StartTag>)
    ensures tags == StartTags(xml)
  {
    hide StepAt, StartTags;
    tags := [];
    var rest := xml;
    var more := true;
    while more
      invariant more ==> tags + StartTags(rest) == StartTags(xml)
      invariant !more ==> tags == StartTags(xml)
      decreases more, |rest|
    {
      TagsFrom(rest);
      var i := Find(rest, "<");
      more := false;
      if i.Some? {
        var step := StepAt(rest[i.value..]);
        if !step.Stop? {
          more := true;
          var after := rest[i.value + step.n..];
          if step.Found? {
            assert tags + ([step.tag] + StartTags(after)) == (tags + [step.tag]) + StartTags(after);
            tags := tags + [step.tag];
          }
          rest := after;
        }
      }
      assert tags + [] == tags;
    }
  }

  // ---------------------------------------------------------------- attributes

  function NameEnds(c: char): bool {
    AsciiWhite(c) || c == '=' || c == '/'
  }

  /** `s` from its first character that `f` does not hold of. */
  function After(s: string, f: char -> bool): (r: string)
    ensures |r| <= |s|
  {
    s[Span(s, f)..]
  }

  /** What stands first among attributes: none, something to pass over, or an
      attribute; and what follows. */
  datatype AttrStep = NoMore | Skip(rest: string) | OneAttr(name: string, value: string, rest: string)

  /** A value, in quotes of either kind or bare. */
  function ValueAt(name: string, v: string): (r: AttrStep)
    requires v != ""
    ensures r.OneAttr? && |r.rest| <= |v|
  {
    if v[0] == '"' || v[0] == '\'' then
      var k := Span(v[1..], c => c != v[0]);
      OneAttr(name, v[1..][..k], if k == |v[1..]| then "" else v[1..][k + 1..])
    else
      var k := Span(v, c => !AsciiWhite(c));
      OneAttr(name, v[..k], v[k..])
  }

  function NextAttr(s: string): (r: AttrStep)
    ensures !r.NoMore? ==> |r.rest| < |s|
  {
    var rest := After(s, c => AsciiWhite(c) || c == '/');
    if rest == "" then NoMore
    else
      var n := Span(rest, c => !NameEnds(c));
      if n == 0 then Skip(rest[1..])
      else
        var after := After(rest[n..], c => AsciiWhite(c));
        if after == "" || after[0] != '=' then Skip(after)
        else
          var v := After(after[1..], c => AsciiWhite(c));
          if v == "" then NoMore else ValueAt(rest[..n], v)
  }

  /** The value of the first attribute whose local name is `want`. */
  function AttrValue(s: string, want: string): Option<string>
    decreases |s|
  {
    match NextAttr(s)
    case NoMore => None
    case Skip(rest) => AttrValue(rest, want)
    case OneAttr(name, value, rest) => if LocalOf(name) == want then Some(value) else AttrValue(rest, want)
  }

  method FindAttr(attrs: string, want: string) returns (value: Option<string>)
    ensures value == AttrValue(attrs, want)
  {
    hide LocalOf;
    var s := attrs;
    while s != ""
      invariant AttrValue(s, want) == AttrValue(attrs, want)
      decreases |s|
    {
      var rest := After(s, c => AsciiWhite(c) || c == '/');
      if rest == "" {
        return None;
      }
      var n := Span(rest, c => !NameEnds(c));
      if n == 0 {
        s := rest[1..];
        continue;
      }
      var after := After(rest[n..], c => AsciiWhite(c));
      if after == "" || after[0] != '=' {
        s := after;
        continue;
      }
      var v := After(after[1..], c => AsciiWhite(c));
      if v == "" {
        return None;
      }
      var found := ValueAt(rest[..n], v);
      if LocalOf(found.name) == want {
        return Some(found.value);
      }
      s := found.rest;
    }
    return None;
  }

  // ---------------------------------------------------------------- documents

  /** A name, with the prefix a writer chose or none. */
  datatype QName = QName(prefix: string, local: string)

  function Qualified(q: QName): string {
    if q.prefix == "" then q.local else q.prefix + ":" + q.local
  }

  /** An attribute, with the space before it, the space around its `=`, and
      its quote. */
  datatype Attr = Attr(before: string, name: QName, left: string, right: string, quote: char, value: string)

  datatype Item =
    | Chars(s: string)
    | Comment(s: string)
    | CData(s: string)
    | Instruction(s: string)
    | EndTag(name: QName, space: string)
    | Tag(name: QName, attrs: seq<Attr>, space: string, empty: bool)

  predicate NameChar(c: char) {
    !White(c) && c != '/' && c != '>' && c != '<' && c != '=' && c != '"' && c != '\'' && c != ':'
  }

  predicate ValidName(q: QName) {
    && q.local != ""
    && All(q.prefix, c => NameChar(c)) && All(q.local, c => NameChar(c))
    && Qualified(q)[0] != '!' && Qualified(q)[0] != '?'
  }

  predicate Spaces(s: string) {
    All(s, c => AsciiWhite(c))
  }

  predicate ValidAttr(a: Attr) {
    && a.before != "" && Spaces(a.before) && Spaces(a.left) && Spaces(a.right)
    && ValidName(a.name)
    && (a.quote == '"' || a.quote == '\'')
    && All(a.value, c => c != a.quote)
  }

  /** A comment's text as XML 1.0 section 2.5 has it: no two hyphens together,
      none last. */
  predicate ValidComment(s: string) {
    (forall i :: 0 <= i < |s| - 1 ==> !(s[i] == '-' && s[i + 1] == '-')) && (s == "" || s[|s| - 1] != '-')
  }

  /** Text that the scanner takes for a comment's end. */
  predicate EndsEarly(s: string) {
    (|s| >= 1 && s[0] == '>') || (|s| >= 2 && s[0] == '-' && s[1] == '>')
  }

  ghost predicate Free(s: string, p: string) {
    forall i :: 0 <= i <= |s| ==> !At(s, p, i)
  }

  /** Sections 2.4 to 2.7 and 3.1 of XML 1.0, as far as they matter here. */
  ghost predicate ValidItem(x: Item) {
    match x
    case Chars(s) => All(s, c => c != '<')
    case Comment(s) => ValidComment(s)
    case CData(s) => Free(s, "]]>")
    case Instruction(s) => s != "" && s[0] != '>' && Free(s, "?>")
    case EndTag(name, space) => ValidName(name) && Spaces(space)
    case Tag(name, attrs, space, _) => ValidName(name) && Spaces(space) && forall k :: 0 <= k < |attrs| ==> ValidAttr(attrs[k])
  }

  function PrintAttr(a: Attr): string {
    a.before + Qualified(a.name) + a.left + "=" + a.right + [a.quote] + a.value + [a.quote]
  }

  function PrintAttrs(attrs: seq<Attr>): string {
    if attrs == [] then "" else PrintAttr(attrs[0]) + PrintAttrs(attrs[1..])
  }

  function PrintItem(x: Item): string {
    match x
    case Chars(s) => s
    case Comment(s) => "<!--" + s + "-->"
    case CData(s) => "<![CDATA[" + s + "]]>"
    case Instruction(s) => "<?" + s + "?>"
    case EndTag(name, space) => "</" + Qualified(name) + space + ">"
    case Tag(name, attrs, space, empty) => "<" + Qualified(name) + PrintAttrs(attrs) + space + (if empty then "/>" else ">")
  }

  function Print(items: seq<Item>): string {
    if items == [] then "" else PrintItem(items[0]) + Print(items[1..])
  }

  /** The start tags a document has. */
  function TagsOf(items: seq<Item>): seq<StartTag> {
    if items == [] then []
    else (if items[0].Tag? then [TagFor(items[0])] else []) + TagsOf(items[1..])
  }

  function TagFor(x: Item): StartTag
    requires x.Tag?
  {
    StartTag(Qualified(x.name), x.name.local, TrimStart(PrintAttrs(x.attrs)))
  }

  /** The value of the first attribute of that local name. */
  function ValueOf(attrs: seq<Attr>, want: string): Option<string> {
    if attrs == [] then None else if attrs[0].name.local == want then Some(attrs[0].value) else ValueOf(attrs[1..], want)
  }

  // ---------------------------------------------------------------- names

  lemma {:induction false} LocalJoin(a: string, b: string)
    requires All(b, c => NameChar(c))
    ensures LocalOf(a + ":" + b) == b
    ensures LocalOf(b) == b
  {
    if b == "" {
      assert a + ":" + b == a + ":";
    } else {
      var n := |b| - 1;
      assert NameChar(b[n]);
      LocalJoin(a, b[..n]);
      assert (a + ":" + b)[..|a| + 1 + n] == a + ":" + b[..n];
    }
  }

  /** Whatever prefix a writer chose, the local name is found. */
  lemma LocalOfQualified(q: QName)
    requires ValidName(q)
    ensures LocalOf(Qualified(q)) == q.local
  {
    LocalJoin(q.prefix, q.local);
  }

  /** What no character of a name is. */
  predicate Bare(c: char) {
    !White(c) && c != '/' && c != '>' && c != '<' && c != '=' && c != '"' && c != '\''
  }

  lemma NameIsBare(q: QName)
    requires ValidName(q)
    ensures Qualified(q) != "" && All(Qualified(q), c => Bare(c))
  {
    var s := Qualified(q);
    if q.prefix == "" {
      forall i | 0 <= i < |s|
        ensures Bare(s[i])
      {
        assert NameChar(q.local[i]);
      }
    } else {
      forall i | 0 <= i < |s|
        ensures Bare(s[i])
      {
        if i < |q.prefix| {
          assert NameChar(q.prefix[i]);
        } else if i > |q.prefix| {
          assert NameChar(q.local[i - |q.prefix| - 1]);
        }
      }
    }
  }

  // ---------------------------------------------------------------- where tags end

  predicate Calm(c: char) {
    c != '>' && c != '"' && c != '\''
  }

  function Plus(r: Option<nat>, n: nat): Option<nat> {
    if r.Some? then Some(r.value + n) else None
  }

  lemma {:induction false} PassCalm(a: string, b: string)
    requires All(a, c => Calm(c))
    ensures TagEnd(a + b, None) == Plus(TagEnd(b, None), |a|)
  {
    if a == "" {
      assert a + b == b;
    } else {
      assert (a + b)[1..] == a[1..] + b;
      assert Calm(a[0]);
      PassCalm(a[1..], b);
    }
  }

  lemma {:induction false} PassValue(v: string, q: char, b: string)
    requires (q == '"' || q == '\'') && All(v, c => c != q)
    ensures TagEnd(v + [q] + b, Some(q)) == Plus(TagEnd(b, None), |v| + 1)
  {
    if v == "" {
      assert v + [q] + b == [q] + b;
      assert ([q] + b)[1..] == b;
    } else {
      assert (v + [q] + b)[1..] == v[1..] + [q] + b;
      PassValue(v[1..], q, b);
    }
  }

  lemma AllJoined(a: string, b: string, f: char -> bool)
    requires All(a, f) && All(b, f)
    ensures All(a + b, f)
  {
  }

  lemma AllMore(a: string, f: char -> bool, g: char -> bool)
    requires All(a, f) && forall c :: f(c) ==> g(c)
    ensures All(a, g)
  {
  }

  lemma PassAttr(a: Attr, b: string)
    requires ValidAttr(a)
    ensures TagEnd(PrintAttr(a) + b, None) == Plus(TagEnd(b, None), |PrintAttr(a)|)
  {
    hide TagEnd, All;
    var calm := (c: char) => Calm(c);
    NameIsBare(a.name);
    AllMore(Qualified(a.name), c => Bare(c), calm);
    AllMore(a.before, c => AsciiWhite(c), calm);
    AllMore(a.left, c => AsciiWhite(c), calm);
    AllMore(a.right, c => AsciiWhite(c), calm);
    OneCalm();
    AllJoined(a.before, Qualified(a.name), calm);
    AllJoined(a.before + Qualified(a.name), a.left, calm);
    AllJoined(a.before + Qualified(a.name) + a.left, "=", calm);
    AllJoined(a.before + Qualified(a.name) + a.left + "=", a.right, calm);
    var head := a.before + Qualified(a.name) + a.left + "=" + a.right;
    var tail := [a.quote] + (a.value + [a.quote] + b);
    assert PrintAttr(a) + b == head + tail;
    PassCalm(head, tail);
    PassValue(a.value, a.quote, b);
    OpenQuote(a.quote, a.value + [a.quote] + b);
  }

  lemma OneCalm()
    ensures All("=", c => Calm(c))
  {
  }

  lemma OpenQuote(q: char, b: string)
    requires q == '"' || q == '\''
    ensures TagEnd([q] + b, None) == Plus(TagEnd(b, Some(q)), 1)
  {
    assert ([q] + b)[1..] == b;
  }

  lemma {:induction false} PassAttrs(attrs: seq<Attr>, b: string)
    requires forall k :: 0 <= k < |attrs| ==> ValidAttr(attrs[k])
    ensures TagEnd(PrintAttrs(attrs) + b, None) == Plus(TagEnd(b, None), |PrintAttrs(attrs)|)
  {
    hide TagEnd, ValidAttr, PrintAttr;
    if attrs == [] {
      assert PrintAttrs(attrs) + b == b;
    } else {
      PassAttrs(attrs[1..], b);
      PassAttr(attrs[0], PrintAttrs(attrs[1..]) + b);
      assert PrintAttrs(attrs) + b == PrintAttr(attrs[0]) + (PrintAttrs(attrs[1..]) + b);
    }
  }
}
