/** The scanner finds exactly a document's start tags, and in them exactly its
    attributes, whatever prefixes, quotes and spaces a writer chose. */
module MarkupLaws {
  import opened Engine
  import opened Markup

  // ---------------------------------------------------------------- what is passed over

  lemma {:induction false} FindLater(a: string, b: string, i: nat)
    requires i <= |a| && All(a, c => c != '<')
    ensures FindFrom(a + b, "<", i) == Plus(FindFrom(b, "<", 0), |a|)
    decreases |a| - i
  {
    if i == |a| {
      FindShift(a, b, 0);
    } else {
      assert (a + b)[i] == a[i];
      assert !At(a + b, "<", i) by {
        assert i + 1 <= |a + b| ==> (a + b)[i..i + 1][0] == a[i];
      }
      FindLater(a, b, i + 1);
    }
  }

  lemma {:induction false} FindShift(a: string, b: string, i: nat)
    requires i <= |b|
    ensures FindFrom(a + b, "<", |a| + i) == Plus(FindFrom(b, "<", i), |a|)
    decreases |b| - i
  {
    AtShift(a, b, "<", i);
    if i < |b| {
      FindShift(a, b, i + 1);
    }
  }

  lemma AtShift(a: string, b: string, p: string, i: nat)
    ensures At(a + b, p, |a| + i) <==> At(b, p, i)
  {
    if i + |p| <= |b| {
      assert (a + b)[|a| + i..|a| + i + |p|] == b[i..i + |p|];
    }
  }

  /** Text with no `<` holds no tag. */
  lemma CharsPass(s: string, rest: string)
    requires All(s, c => c != '<')
    ensures StartTags(s + rest) == StartTags(rest)
  {
    hide StepAt, FindFrom, All;
    FindLater(s, rest, 0);
    var i := Find(rest, "<");
    if i.Some? {
      assert (s + rest)[|s| + i.value..] == rest[i.value..];
      var step := StepAt(rest[i.value..]);
      if !step.Stop? {
        assert (s + rest)[|s| + i.value + step.n..] == rest[i.value + step.n..];
      }
    }
  }

  /** At a `<` the scanner takes one step. */
  lemma Steps(s: string)
    requires s != "" && s[0] == '<'
    ensures var step := StepAt(s);
            && (step.Stop? ==> StartTags(s) == [])
            && (step.Pass? ==> StartTags(s) == StartTags(s[step.n..]))
            && (step.Found? ==> StartTags(s) == [step.tag] + StartTags(s[step.n..]))
  {
    hide StepAt;
    assert At(s, "<", 0);
    FindIs(s, "<", 0);
    assert s[0..] == s;
  }

  lemma Begins(p: string, b: string)
    ensures At(p + b, p, 0)
  {
  }

  lemma NotBegins(s: string, p: string, k: nat)
    requires k < |s| && k < |p| && s[k] != p[k]
    ensures !At(s, p, 0)
  {
    assert |p| <= |s| ==> s[0..|p|][k] == s[k];
  }

  /** `close` does not stand in `s` before `i`. */
  ghost predicate NotBefore(s: string, close: string, i: nat) {
    forall j :: 0 <= j < i ==> !At(s, close, j)
  }

  lemma FoundAt(s: string, close: string, i: nat)
    requires NotBefore(s, close, i) && At(s, close, i)
    ensures Find(s, close) == Some(i)
  {
    FindIs(s, close, i);
  }

  /** One character that differs is enough. */
  lemma Differs(s: string, p: string, j: nat, k: nat)
    requires k < |p| && (j + k < |s| ==> s[j + k] != p[k])
    ensures !At(s, p, j)
  {
    assert j + |p| <= |s| ==> s[j..j + |p|][k] == s[j + k];
  }

  /** Where a comment is taken to end: at its end, unless its text begins as
      one would. */
  lemma CommentEnd(s: string, rest: string)
    requires ValidComment(s)
    ensures var all := "<!--" + s + "-->" + rest;
            Find(all, "-->") == Some(4 + |s|) <==> !EndsEarly(s)
  {
    var all := "<!--" + s + "-->" + rest;
    assert At(all, "-->", 4 + |s|) by {
      assert all[4 + |s|..4 + |s| + 3] == "-->";
    }
    assert forall k :: 0 <= k < |s| ==> all[4 + k] == s[k];
    if EndsEarly(s) {
      var j := if s[0] == '>' then 2 else 3;
      assert all[j..j + 3] == "-->";
      assert At(all, "-->", j);
    } else {
      forall j | 0 <= j < 4 + |s|
        ensures !At(all, "-->", j)
      {
        CommentInside(s, rest, j);
      }
      FoundAt(all, "-->", 4 + |s|);
    }
  }

  lemma CommentInside(s: string, rest: string, j: nat)
    requires ValidComment(s) && !EndsEarly(s) && j < 4 + |s|
    ensures !At("<!--" + s + "-->" + rest, "-->", j)
  {
    var all := "<!--" + s + "-->" + rest;
    assert forall k :: 0 <= k < |s| ==> all[4 + k] == s[k];
    assert all[0] == '<' && all[1] == '!' && all[2] == '-' && all[3] == '-';
    assert all[4 + |s|] == '-' && all[5 + |s|] == '-' && all[6 + |s|] == '>';
    if j < 2 {
      Differs(all, "-->", j, 0);
    } else if j == 2 {
      Differs(all, "-->", j, 2);
    } else if j == 3 {
      Differs(all, "-->", j, if s != "" && s[0] != '-' then 1 else 2);
    } else {
      var i := j - 4;
      assert s[i] == '-' && i + 1 < |s| ==> s[i + 1] != '-';
      Differs(all, "-->", j, if s[i] != '-' then 0 else 1);
    }
  }

  lemma CommentPasses(s: string, rest: string)
    requires ValidComment(s) && !EndsEarly(s)
    ensures StartTags("<!--" + s + "-->" + rest) == StartTags(rest)
  {
    hide Find, ValidComment, EndsEarly, TagEnd, StartTags;
    var all := "<!--" + s + "-->" + rest;
    CommentEnd(s, rest);
    assert At(all, "<!--", 0) by {
      assert all == "<!--" + (s + "-->" + rest);
      Begins("<!--", s + "-->" + rest);
    }
    NotBegins(all, "<![CDATA[", 2);
    Steps(all);
    assert all[7 + |s|..] == rest;
  }

  lemma CloseInside(open: string, s: string, close: string, rest: string, j: nat)
    requires |close| > 1 && Free(s, close) && |open| <= j < |open| + |s|
    requires forall k :: 0 <= k < |close| - 1 ==> close[k] != close[|close| - 1]
    ensures !At(open + s + close + rest, close, j)
  {
    var all := open + s + close + rest;
    var i, last := j - |open|, j + |close| - 1;
    if last < |open| + |s| {
      assert all[j..j + |close|] == s[i..i + |close|];
      assert !At(s, close, i);
    } else {
      assert all[last] == close[last - |open| - |s|];
      Differs(all, close, j, |close| - 1);
    }
  }

  lemma CDataPasses(s: string, rest: string)
    requires Free(s, "]]>")
    ensures StartTags("<![CDATA[" + s + "]]>" + rest) == StartTags(rest)
  {
    hide TagEnd, StartTags, Free;
    var all := "<![CDATA[" + s + "]]>" + rest;
    CDataEnd(s, rest);
    assert At(all, "<![CDATA[", 0) by {
      assert all == "<![CDATA[" + (s + "]]>" + rest);
      Begins("<![CDATA[", s + "]]>" + rest);
    }
    Steps(all);
    assert all[12 + |s|..] == rest;
  }

  lemma CDataEnd(s: string, rest: string)
    requires Free(s, "]]>")
    ensures Find("<![CDATA[" + s + "]]>" + rest, "]]>") == Some(9 + |s|)
  {
    hide Free, Find;
    var open := "<![CDATA[";
    var all := open + s + "]]>" + rest;
    forall j | 0 <= j < 9 + |s|
      ensures !At(all, "]]>", j)
    {
      if j < 9 {
        assert all[j] == open[j];
        Differs(all, "]]>", j, 0);
      } else {
        CloseInside(open, s, "]]>", rest, j);
      }
    }
    assert all[9 + |s|..9 + |s| + 3] == "]]>";
    FoundAt(all, "]]>", 9 + |s|);
  }

  lemma InstructionPasses(s: string, rest: string)
    requires s != "" && s[0] != '>' && Free(s, "?>")
    ensures StartTags("<?" + s + "?>" + rest) == StartTags(rest)
  {
    hide TagEnd, StartTags, Free;
    var all := "<?" + s + "?>" + rest;
    InstructionEnd(s, rest);
    assert At(all, "<?", 0) by {
      assert all == "<?" + (s + "?>" + rest);
      Begins("<?", s + "?>" + rest);
    }
    NotBegins(all, "<![CDATA[", 1);
    NotBegins(all, "<!--", 1);
    Steps(all);
    assert all[4 + |s|..] == rest;
  }

  lemma InstructionEnd(s: string, rest: string)
    requires s != "" && s[0] != '>' && Free(s, "?>")
    ensures Find("<?" + s + "?>" + rest, "?>") == Some(2 + |s|)
  {
    hide Free, Find;
    var open := "<?";
    var all := open + s + "?>" + rest;
    forall j | 0 <= j < 2 + |s|
      ensures !At(all, "?>", j)
    {
      if j < 2 {
        assert all[j] == open[j] && all[2] == s[0];
        Differs(all, "?>", j, j);
      } else {
        CloseInside(open, s, "?>", rest, j);
      }
    }
    assert all[2 + |s|..2 + |s| + 2] == "?>";
    FoundAt(all, "?>", 2 + |s|);
  }

  // ---------------------------------------------------------------- end tags and start tags

  lemma SpacesWhite(s: string)
    requires Spaces(s)
    ensures All(s, c => White(c)) && All(s, c => Calm(c))
  {
  }

  lemma BareCalm(s: string)
    requires All(s, c => Bare(c))
    ensures All(s, c => Calm(c)) && All(s, c => !White(c))
  {
  }

  /** No opening of anything but a tag. */
  lemma OnlyTag(s: string, c: char)
    requires |s| > 1 && s[0] == '<' && s[1] == c && c != '!' && c != '?'
    ensures !At(s, "<![CDATA[", 0) && !At(s, "<!--", 0) && !At(s, "<?", 0) && !At(s, "<!", 0)
  {
    NotBegins(s, "<![CDATA[", 1);
    NotBegins(s, "<!--", 1);
    NotBegins(s, "<?", 1);
    NotBegins(s, "<!", 1);
  }

  lemma Closed(a: string, rest: string)
    requires All(a, c => Calm(c))
    ensures TagEnd(a + (">" + rest), None) == Some(|a|)
  {
    PassCalm(a, ">" + rest);
  }

  lemma EndTagPasses(name: QName, space: string, rest: string)
    requires ValidName(name) && Spaces(space)
    ensures StartTags("</" + Qualified(name) + space + ">" + rest) == StartTags(rest)
  {
    hide All, TagEnd, StartTags, TrimEnd, Bare, ValidName, Spaces;
    var q := Qualified(name);
    var head := "</" + q + space;
    var all := head + ">" + rest;
    NameIsBare(name);
    BareCalm(q);
    SpacesWhite(space);
    Slashed();
    AllJoined("</", q, c => Calm(c));
    AllJoined("</" + q, space, c => Calm(c));
    assert all == head + (">" + rest);
    Closed(head, rest);
    OnlyTag(all, '/');
    assert all[1..|head|] == "/" + q + space;
    EndInner(q, space);
    Steps(all);
    assert all[|head| + 1..] == rest;
  }

  lemma Slashed()
    ensures All("</", c => Calm(c)) && All("<", c => Calm(c)) && All("/", c => Calm(c)) && All("", c => Calm(c))
  {
  }

  lemma EndInner(q: string, space: string)
    requires q != "" && All(q, c => Bare(c)) && All(space, c => White(c))
    ensures TrimEnd(TrimStart("/" + q + space)) == "/" + q
  {
    var s := "/" + q + space;
    assert "" + s == s;
    TrimStartIs("", s);
    assert Bare(q[|q| - 1]);
    assert s == ("/" + q) + space;
    TrimEndIs("/" + q, space);
  }

  /** Attributes as printed: none, or a space first and a quote last. */
  lemma {:induction false} AttrsShape(attrs: seq<Attr>)
    requires forall k :: 0 <= k < |attrs| ==> ValidAttr(attrs[k])
    ensures var a := PrintAttrs(attrs);
            a == "" || (White(a[0]) && !White(a[|a| - 1]) && a[|a| - 1] != '/')
  {
    if attrs != [] {
      AttrsShape(attrs[1..]);
      var a := attrs[0];
      assert ValidAttr(a);
      assert AsciiWhite(a.before[0]);
      var p := PrintAttr(a);
      assert p[0] == a.before[0] && p[|p| - 1] == a.quote;
    }
  }

  /** A name, with attributes a space apart: neither end to trim. */
  ghost predicate Body(q: string, a: string) {
    && q != "" && All(q, c => Bare(c))
    && (a == "" || (White(a[0]) && !White(a[|a| - 1]) && a[|a| - 1] != '/'))
  }

  lemma BodyEnds(q: string, a: string)
    requires Body(q, a)
    ensures var body := q + a;
            body != "" && !White(body[0]) && body[0] != '/' && !White(body[|body| - 1]) && body[|body| - 1] != '/'
  {
    var body := q + a;
    assert Bare(q[0]) && Bare(q[|q| - 1]);
    assert body[|body| - 1] == if a == "" then q[|q| - 1] else a[|a| - 1];
  }

  lemma BodySplits(q: string, a: string, n: nat)
    requires Body(q, a)
    ensures var body := q + a;
            var split := Span(body, c => !White(c));
            split == |q| && body[..split] == q && body[split..] == a
  {
    hide White;
    BareCalm(q);
    SpanIs(q, a, c => !White(c));
  }

  lemma TrimBody(body: string, space: string, empty: bool)
    requires body != "" && !White(body[0]) && !White(body[|body| - 1]) && All(space, c => White(c))
    ensures TrimEnd(TrimStart(body + space + if empty then "/" else "")) == if empty then body + space + "/" else body
    ensures TrimEnd(body + space) == body
  {
    hide White, All;
    var s := body + space + if empty then "/" else "";
    TrimEndIs(body, space);
    assert "" + s == s;
    assert All("", c => White(c)) by { NothingWhite(); }
    TrimStartIs("", s);
    if empty {
      SlashNotWhite();
      assert s + "" == s;
      TrimEndIs(s, "");
    } else {
      assert s == body + space;
    }
  }

  lemma NothingWhite()
    ensures All("", c => White(c))
  {
  }

  lemma SlashNotWhite()
    ensures !White('/')
  {
  }

  /** What is inside a start tag, trimmed and split. */
  lemma InnerTag(q: string, a: string, space: string, empty: bool, n: nat)
    requires Body(q, a) && All(space, c => White(c))
    ensures var inner := TrimEnd(TrimStart(q + a + space + if empty then "/" else ""));
            TagOf(inner, n) == Found(StartTag(q, LocalOf(q), TrimStart(a)), n)
  {
    hide LocalOf, TrimStart, TrimEnd, White, All, Body, Span;
    var body := q + a;
    BodyEnds(q, a);
    BodySplits(q, a, n);
    TrimBody(body, space, empty);
    if empty {
      assert (body + space + "/")[..|body| + |space|] == body + space;
    }
  }

  lemma TagFound(name: QName, attrs: seq<Attr>, space: string, empty: bool, rest: string)
    requires ValidItem(Tag(name, attrs, space, empty))
    ensures var x := Tag(name, attrs, space, empty);
            StartTags(PrintItem(x) + rest) == [TagFor(x)] + StartTags(rest)
  {
    hide *;
    var x := Tag(name, attrs, space, empty);
    var q, a := Qualified(name), PrintAttrs(attrs);
    var inner := q + a + space + if empty then "/" else "";
    TagParts(x);
    LocalOfQualified(name);
    TagEnds(name, attrs, space, empty, rest);
    InnerTag(q, a, space, empty, |inner| + 2);
    TagStep(inner, rest, StartTag(q, name.local, TrimStart(a)));
    TagPrinted(x, rest);
  }

  lemma TagParts(x: Item)
    requires x.Tag? && ValidItem(x)
    ensures ValidName(x.name) && Body(Qualified(x.name), PrintAttrs(x.attrs)) && All(x.space, c => White(c))
    ensures var inner := Qualified(x.name) + PrintAttrs(x.attrs) + x.space + if x.empty then "/" else "";
            inner != "" && inner[0] != '!' && inner[0] != '?'
  {
    hide All, White, Bare, PrintAttrs, Qualified, ValidAttr;
    NameIsBare(x.name);
    SpacesWhite(x.space);
    AttrsShape(x.attrs);
    NameStart(x.name);
  }

  lemma TagPrinted(x: Item, rest: string)
    requires x.Tag?
    ensures PrintItem(x) + rest
         == "<" + (Qualified(x.name) + PrintAttrs(x.attrs) + x.space + if x.empty then "/" else "") + (">" + rest)
    ensures TagFor(x) == StartTag(Qualified(x.name), x.name.local, TrimStart(PrintAttrs(x.attrs)))
  {
    hide Qualified, PrintAttrs, TrimStart;
  }

  /** The step at a tag whose inside is known. */
  lemma TagStep(inner: string, rest: string, tag: StartTag)
    requires inner != "" && inner[0] != '!' && inner[0] != '?'
    requires TagEnd("<" + inner + (">" + rest), None) == Some(|inner| + 1)
    requires TagOf(TrimEnd(TrimStart(inner)), |inner| + 2) == Found(tag, |inner| + 2)
    ensures StartTags("<" + inner + (">" + rest)) == [tag] + StartTags(rest)
  {
    hide TagEnd, StartTags, TrimEnd, TrimStart, TagOf, At;
    var all := "<" + inner + (">" + rest);
    OnlyTag(all, inner[0]);
    assert all[1..1 + |inner|] == inner;
    Steps(all);
    assert all[|inner| + 2..] == rest;
  }

  lemma NameStart(name: QName)
    requires ValidName(name)
    ensures Qualified(name)[0] != '!' && Qualified(name)[0] != '?'
  {
  }

  lemma TagEnds(name: QName, attrs: seq<Attr>, space: string, empty: bool, rest: string)
    requires ValidItem(Tag(name, attrs, space, empty))
    ensures var inner := Qualified(name) + PrintAttrs(attrs) + space + if empty then "/" else "";
            TagEnd("<" + inner + (">" + rest), None) == Some(|inner| + 1)
  {
    hide All, TagEnd, Bare, ValidName, Spaces, PrintAttrs, ValidAttr, Qualified;
    var q, a := Qualified(name), PrintAttrs(attrs);
    var tail := if empty then "/" else "";
    NameIsBare(name);
    BareCalm(q);
    SpacesWhite(space);
    Slashed();
    AllJoined("<", q, c => Calm(c));
    AllJoined(space, tail, c => Calm(c));
    var end := space + tail;
    Closed(end, rest);
    var more := end + (">" + rest);
    PassAttrs(attrs, more);
    PassCalm("<" + q, a + more);
    assert "<" + (q + a + space + tail) + (">" + rest) == ("<" + q) + (a + more);
  }

  // ---------------------------------------------------------------- comments that end early

  /** What the scanner has still to read of a comment it takes to end where it
      begins. */
  function Left(s: string): string
    requires EndsEarly(s)
  {
    if s[0] == '>' then s[1..] else s[2..]
  }

  /** Read as markup, `w` has no start tag, and nothing in it is left open. */
  predicate Harmless(w: string)
    decreases |w|
  {
    var i := Find(w, "<");
    i.None? || (
      var step := StepAt(w[i.value..]);
      step.Pass? && Harmless(w[i.value + step.n..]))
  }

  /** A comment that is not taken to end early, or whose text does no harm. */
  predicate ReadsRight(s: string) {
    !EndsEarly(s) || Harmless(Left(s) + "-->")
  }

  lemma EarlyEnd(s: string, rest: string)
    requires EndsEarly(s)
    ensures Find("<!--" + s + "-->" + rest, "-->") == Some(if s[0] == '>' then 2 else 3)
  {
    hide Find;
    var all := "<!--" + s + "-->" + rest;
    var k := if s[0] == '>' then 2 else 3;
    assert all[4] == s[0] && (|s| >= 2 ==> all[5] == s[1]);
    assert all[0] == '<' && all[1] == '!' && all[2] == '-' && all[3] == '-';
    assert all[k..k + 3] == "-->";
    forall j | 0 <= j < k
      ensures !At(all, "-->", j)
    {
      Differs(all, "-->", j, if j < 2 then 0 else 2);
    }
    FoundAt(all, "-->", k);
  }

  /** Such a comment is passed over no further than its early end. */
  lemma EarlyLeft(s: string, rest: string)
    requires EndsEarly(s)
    ensures StartTags("<!--" + s + "-->" + rest) == StartTags(Left(s) + "-->" + rest)
  {
    hide TagEnd, StartTags, Find;
    var all := "<!--" + s + "-->" + rest;
    EarlyEnd(s, rest);
    assert At(all, "<!--", 0) by {
      assert all == "<!--" + (s + "-->" + rest);
      Begins("<!--", s + "-->" + rest);
    }
    NotBegins(all, "<![CDATA[", 2);
    Steps(all);
    assert all[(if s[0] == '>' then 5 else 6)..] == Left(s) + "-->" + rest;
  }

  lemma FirstOpen(w: string)
    ensures var i := Find(w, "<");
            && (i.None? ==> All(w, c => c != '<'))
            && (i.Some? ==> All(w[..i.value], c => c != '<') && w == w[..i.value] + w[i.value..])
  {
    forall j | 0 <= j < |w|
      ensures At(w, "<", j) <==> w[j] == '<'
    {
      assert w[j..j + 1] == [w[j]];
    }
  }

  lemma AtMore(u: string, rest: string, p: string, j: nat)
    requires At(u, p, j)
    ensures At(u + rest, p, j)
  {
    assert (u + rest)[j..j + |p|] == u[j..j + |p|];
  }

  /** Where a closing mark may stand once `u`, which ends with `>`, goes on. */
  lemma AtAcross(u: string, rest: string, p: string, j: nat)
    requires u != "" && u[|u| - 1] == '>' && p != "" && forall k :: 0 <= k < |p| - 1 ==> p[k] != '>'
    requires At(u + rest, p, j) && j < |u|
    ensures At(u, p, j)
  {
    var k := |u| - 1 - j;
    if k < |p| - 1 {
      Differs(u + rest, p, j, k);
    } else {
      assert (u + rest)[j..j + |p|] == u[j..j + |p|];
    }
  }

  lemma FindMore(u: string, rest: string, p: string)
    requires u != "" && u[|u| - 1] == '>' && p != "" && forall k :: 0 <= k < |p| - 1 ==> p[k] != '>'
    ensures Find(u, p).Some? ==> Find(u + rest, p) == Find(u, p)
    ensures Find(u, p).None? && Find(rest, p).None? ==> Find(u + rest, p).None?
  {
    if Find(u, p).Some? {
      var i := Find(u, p).value;
      AtMore(u, rest, p, i);
      forall j | 0 <= j < i
        ensures !At(u + rest, p, j)
      {
        if At(u + rest, p, j) {
          AtAcross(u, rest, p, j);
        }
      }
      FoundAt(u + rest, p, i);
    } else if Find(rest, p).None? && Find(u + rest, p).Some? {
      var j := Find(u + rest, p).value;
      if j < |u| {
        AtAcross(u, rest, p, j);
      } else {
        AtShift(u, rest, p, j - |u|);
      }
    }
  }

  /** What `u` opens with it opens with however it goes on. */
  lemma OpensSame(u: string, rest: string, p: string)
    requires u != "" && u[|u| - 1] == '>' && forall k :: 0 <= k < |p| ==> p[k] != '>'
    ensures At(u + rest, p, 0) <==> At(u, p, 0)
  {
    if At(u + rest, p, 0) && |u| < |p| {
      Differs(u + rest, p, 0, |u| - 1);
    } else if |u| >= |p| {
      assert (u + rest)[0..|p|] == u[0..|p|];
    }
  }

  lemma {:induction false} TagEndMore(u: string, rest: string, quote: Option<char>)
    requires TagEnd(u, quote).Some?
    ensures TagEnd(u + rest, quote) == TagEnd(u, quote)
  {
    assert (u + rest)[0] == u[0] && (u + rest)[1..] == u[1..] + rest;
    if quote.Some? || u[0] != '>' {
      var next := if quote.Some? then (if u[0] == quote.value then None else quote)
                  else if u[0] == '"' || u[0] == '\'' then Some(u[0]) else None;
      TagEndMore(u[1..], rest, next);
    }
  }

  const PROBE := "<a>"

  /** A tag left open in a quote stays open. */
  lemma {:induction false} TagEndNever(u: string, quote: Option<char>)
    requires TagEnd(u, quote).None? && (u == "" ==> quote.Some?) && (u != "" ==> u[|u| - 1] == '>')
    requires quote.Some? ==> quote.value == '"' || quote.value == '\''
    ensures TagEnd(u + PROBE, quote).None?
  {
    if u == "" {
      assert u + PROBE == PROBE && PROBE[1..] == "a>" && PROBE[1..][1..] == ">" && PROBE[1..][1..][1..] == "";
    } else {
      assert (u + PROBE)[0] == u[0] && (u + PROBE)[1..] == u[1..] + PROBE;
      var next := if quote.Some? then (if u[0] == quote.value then None else quote)
                  else if u[0] == '"' || u[0] == '\'' then Some(u[0]) else None;
      TagEndNever(u[1..], next);
    }
  }

  lemma ClosingMarks()
    ensures forall k :: 0 <= k < 2 ==> "]]>"[k] != '>' && "-->"[k] != '>'
    ensures "?>"[0] != '>'
    ensures forall k :: 0 <= k < 9 ==> "<![CDATA["[k] != '>'
    ensures forall k :: 0 <= k < 4 ==> "<!--"[k] != '>'
    ensures forall k :: 0 <= k < 2 ==> "<?"[k] != '>' && "<!"[k] != '>'
  {
  }

  lemma OpeningsSame(u: string, rest: string)
    requires u != "" && u[|u| - 1] == '>'
    ensures At(u + rest, "<![CDATA[", 0) <==> At(u, "<![CDATA[", 0)
    ensures At(u + rest, "<!--", 0) <==> At(u, "<!--", 0)
    ensures At(u + rest, "<?", 0) <==> At(u, "<?", 0)
    ensures At(u + rest, "<!", 0) <==> At(u, "<!", 0)
  {
    ClosingMarks();
    OpensSame(u, rest, "<![CDATA[");
    OpensSame(u, rest, "<!--");
    OpensSame(u, rest, "<?");
    OpensSame(u, rest, "<!");
  }

  /** A step `u` completes is taken however it goes on. */
  lemma StepMore(u: string, rest: string)
    requires u != "" && u[0] == '<' && u[|u| - 1] == '>' && !StepAt(u).Stop?
    ensures StepAt(u + rest) == StepAt(u)
  {
    hide At, Find, TagEnd, TagOf, TrimEnd, TrimStart;
    OpeningsSame(u, rest);
    ClosingMarks();
    FindMore(u, rest, "]]>");
    FindMore(u, rest, "-->");
    FindMore(u, rest, "?>");
    if TagEnd(u, None).Some? {
      TagEndMore(u, rest, None);
      assert (u + rest)[1..TagEnd(u, None).value] == u[1..TagEnd(u, None).value];
    }
  }

  lemma NoMarkInProbe()
    ensures Find(PROBE, "]]>").None? && Find(PROBE, "-->").None? && Find(PROBE, "?>").None?
  {
    forall p: string, j: nat | p in ["]]>", "-->", "?>"]
      ensures !At(PROBE, p, j)
    {
      Differs(PROBE, p, j, 0);
    }
  }

  /** One it leaves open swallows what follows. */
  lemma StopMore(u: string)
    requires u != "" && u[0] == '<' && u[|u| - 1] == '>' && StepAt(u).Stop?
    ensures StepAt(u + PROBE).Stop?
  {
    hide At, Find, TagEnd, TagOf, TrimEnd, TrimStart;
    OpeningsSame(u, PROBE);
    ClosingMarks();
    NoMarkInProbe();
    FindMore(u, PROBE, "]]>");
    FindMore(u, PROBE, "-->");
    FindMore(u, PROBE, "?>");
    if TagEnd(u, None).None? {
      TagEndNever(u, None);
    }
  }

  /** Harmless text is passed over, whatever follows. */
  lemma {:induction false} HarmlessPasses(w: string, rest: string)
    requires Harmless(w) && (w != "" ==> w[|w| - 1] == '>')
    ensures StartTags(w + rest) == StartTags(rest)
    decreases |w|
  {
    hide StepAt, StartTags, Find, All;
    FirstOpen(w);
    var i := Find(w, "<");
    if i.None? {
      CharsPass(w, rest);
    } else {
      OpenAt(w);
      var u := w[i.value..];
      assert w + rest == w[..i.value] + (u + rest);
      CharsPass(w[..i.value], u + rest);
      StepMore(u, rest);
      var n := StepAt(u).n;
      Steps(u + rest);
      assert (u + rest)[n..] == u[n..] + rest && u[n..] == w[i.value + n..];
      HarmlessPasses(u[n..], rest);
    }
  }

  lemma OpenAt(w: string)
    requires Find(w, "<").Some?
    ensures var i := Find(w, "<").value; i < |w| && w[i] == '<' && w[i..] != "" && w[i..][0] == '<'
  {
  }

  /** Harmful text shows a tag of its own, or hides the one that follows. */
  lemma {:induction false} HarmfulShows(w: string)
    requires !Harmless(w) && (w != "" ==> w[|w| - 1] == '>')
    ensures StartTags(w) != [] || StartTags(w + PROBE) == []
    decreases |w|
  {
    hide StepAt, StartTags, Find, All;
    FirstOpen(w);
    OpenAt(w);
    var i := Find(w, "<").value;
    var u := w[i..];
    assert w + PROBE == w[..i] + (u + PROBE);
    CharsPass(w[..i], u + PROBE);
    CharsPass(w[..i], u);
    Steps(u);
    Steps(u + PROBE);
    match StepAt(u)
    case Stop => StopMore(u);
    case Found(_, _) =>
    case Pass(n) =>
      StepMore(u, PROBE);
      assert (u + PROBE)[n..] == u[n..] + PROBE && u[n..] == w[i + n..];
      HarmfulShows(u[n..]);
  }

  lemma ProbeSeen()
    ensures StartTags(PROBE) != []
  {
    var x := Tag(QName("", "a"), [], "", false);
    assert ValidItem(x);
    TagFound(x.name, x.attrs, x.space, x.empty, "");
    assert PrintItem(x) + "" == PROBE;
  }

  /** A comment leaves the scan of what follows as it is, in every document,
      exactly when it reads right. */
  lemma CommentExact(s: string)
    requires ValidComment(s)
    ensures ReadsRight(s) <==> forall rest: string :: StartTags("<!--" + s + "-->" + rest) == StartTags(rest)
  {
    hide StartTags, Harmless, ValidComment;
    if ReadsRight(s) {
      forall rest: string
        ensures StartTags("<!--" + s + "-->" + rest) == StartTags(rest)
      {
        CommentRead(s, rest);
      }
    } else {
      var w := Left(s) + "-->";
      EarlyLeft(s, "");
      EarlyLeft(s, PROBE);
      assert w + "" == w;
      HarmfulShows(w);
      ProbeSeen();
      NothingScanned();
      assert StartTags("<!--" + s + "-->" + "") != StartTags("") || StartTags("<!--" + s + "-->" + PROBE) != StartTags(PROBE);
    }
  }

  lemma CommentRead(s: string, rest: string)
    requires ValidComment(s) && ReadsRight(s)
    ensures StartTags("<!--" + s + "-->" + rest) == StartTags(rest)
  {
    hide StartTags, Harmless, ValidComment;
    if EndsEarly(s) {
      EarlyLeft(s, rest);
      HarmlessPasses(Left(s) + "-->", rest);
    } else {
      CommentPasses(s, rest);
    }
  }

  // ---------------------------------------------------------------- whole documents

  /** A document whose comments read right. */
  ghost predicate Scannable(items: seq<Item>) {
    forall k :: 0 <= k < |items| ==> ValidItem(items[k]) && (items[k].Comment? ==> ReadsRight(items[k].s))
  }

  lemma ItemScanned(x: Item, rest: string)
    requires ValidItem(x) && (x.Comment? ==> ReadsRight(x.s))
    ensures StartTags(PrintItem(x) + rest) == (if x.Tag? then [TagFor(x)] else []) + StartTags(rest)
  {
    hide StartTags, TagFor, ReadsRight;
    var more := StartTags(rest);
    assert [] + more == more;
    match x
    case Chars(s) => CharsPass(s, rest);
    case Comment(s) => CommentRead(s, rest);
    case CData(s) => CDataPasses(s, rest);
    case Instruction(s) => InstructionPasses(s, rest);
    case EndTag(name, space) => EndTagPasses(name, space, rest);
    case Tag(name, attrs, space, empty) => TagFound(name, attrs, space, empty, rest);
  }

  /** The scanner returns exactly the document's start tags, in order. */
  lemma {:induction false} ScansExactly(items: seq<Item>)
    requires Scannable(items)
    ensures StartTags(Print(items)) == TagsOf(items)
  {
    hide StartTags, PrintItem, ValidItem, ReadsRight, TagFor;
    if items == [] {
      NothingScanned();
    } else {
      assert Scannable(items[1..]) by {
        assert forall k :: 0 <= k < |items[1..]| ==> items[1..][k] == items[k + 1];
      }
      ScansExactly(items[1..]);
      ItemScanned(items[0], Print(items[1..]));
    }
  }

  lemma NothingScanned()
    ensures StartTags("") == []
  {
  }

  /** A tag commented out after a `>` is scanned as if it were not: any tag, in
      any document. */
  lemma MisreadComment(x: Item, rest: string)
    requires ValidItem(x) && x.Tag? && ValidComment(">" + PrintItem(x))
    ensures StartTags(PrintItem(Comment(">" + PrintItem(x))) + rest) == [TagFor(x)] + StartTags(rest)
  {
    hide StartTags, ValidItem, TagFor, ValidComment;
    var s := PrintItem(x);
    EarlyLeft(">" + s, rest);
    assert (">" + s)[1..] == s;
    assert s + "-->" + rest == s + ("-->" + rest);
    TagFound(x.name, x.attrs, x.space, x.empty, "-->" + rest);
    CharsPass("-->", rest);
  }

  // ---------------------------------------------------------------- attributes

  lemma WhiteOrSlash(s: string)
    requires Spaces(s)
    ensures All(s, c => AsciiWhite(c) || c == '/') && All(s, c => AsciiWhite(c))
  {
  }

  lemma NameSpan(q: string)
    requires All(q, c => Bare(c))
    ensures All(q, c => !NameEnds(c))
  {
  }

  lemma AfterIs(a: string, b: string, f: char -> bool)
    requires All(a, f) && (b == "" || !f(b[0]))
    ensures After(a + b, f) == b
  {
    SpanIs(a, b, f);
  }

  lemma NameFirst(q: string)
    requires q != "" && All(q, c => Bare(c))
    ensures !AsciiWhite(q[0]) && q[0] != '/'
  {
    assert Bare(q[0]);
  }

  lemma SpaceOrEqual(left: string, b: string)
    requires Spaces(left)
    ensures NameEnds((left + ("=" + b))[0])
  {
    if left != "" {
      assert AsciiWhite(left[0]);
    }
  }

  /** A quoted value read, whatever follows. */
  lemma ValueRead(name: string, q: char, value: string, rest: string)
    requires (q == '"' || q == '\'') && All(value, c => c != q)
    ensures ValueAt(name, [q] + (value + ([q] + rest))) == OneAttr(name, value, rest)
  {
    var v := [q] + (value + ([q] + rest));
    assert v[1..] == value + ([q] + rest);
    SpanIs(value, [q] + rest, c => c != q);
    assert v[1..][..|value|] == value;
    assert v[1..][|value| + 1..] == rest;
  }

  /** A printed attribute read, with some of the space before it. */
  lemma AttrRead(a: Attr, before: string, rest: string)
    requires ValidAttr(a) && Spaces(before)
    ensures var s := before + (Qualified(a.name) + (a.left + ("=" + (a.right + ([a.quote] + (a.value + ([a.quote] + rest)))))));
            NextAttr(s) == OneAttr(Qualified(a.name), a.value, rest)
  {
    hide All, Qualified, Span, After, ValueAt, AsciiWhite, NameEnds, Bare;
    var q := Qualified(a.name);
    var v := [a.quote] + (a.value + ([a.quote] + rest));
    var r3 := a.right + v;
    var r1 := a.left + ("=" + r3);
    NameIsBare(a.name);
    NameSpan(q);
    NameFirst(q);
    WhiteOrSlash(before);
    WhiteOrSlash(a.left);
    WhiteOrSlash(a.right);
    Delimiters(a.quote);
    SpaceOrEqual(a.left, r3);
    AfterIs(before, q + r1, c => AsciiWhite(c) || c == '/');
    SpanIs(q, r1, c => !NameEnds(c));
    assert (q + r1)[..|q|] == q && (q + r1)[|q|..] == r1;
    AfterIs(a.left, "=" + r3, c => AsciiWhite(c));
    assert ("=" + r3)[1..] == r3;
    AfterIs(a.right, v, c => AsciiWhite(c));
    ValueRead(q, a.quote, a.value, rest);
  }

  lemma Delimiters(q: char)
    requires q == '"' || q == '\''
    ensures !AsciiWhite('=') && !AsciiWhite(q)
  {
  }

  lemma PrintedAttr(a: Attr, rest: string)
    ensures PrintAttr(a) + rest
         == a.before + (Qualified(a.name) + (a.left + ("=" + (a.right + ([a.quote] + (a.value + ([a.quote] + rest)))))))
  {
    hide Qualified;
  }

  /** Among a tag's attributes the value found for a local name is that of the
      first attribute so named. */
  lemma {:induction false} AttrsRead(attrs: seq<Attr>, want: string)
    requires forall k :: 0 <= k < |attrs| ==> ValidAttr(attrs[k])
    ensures AttrValue(PrintAttrs(attrs), want) == ValueOf(attrs, want)
  {
    hide ValidAttr, PrintAttr, NextAttr, LocalOf, Qualified;
    if attrs == [] {
      NoAttrs(want);
    } else {
      var a := attrs[0];
      AttrsRead(attrs[1..], want);
      assert ValidAttr(a);
      ValidParts(a);
      AttrRead(a, a.before, PrintAttrs(attrs[1..]));
      PrintedAttr(a, PrintAttrs(attrs[1..]));
      LocalOfQualified(a.name);
    }
  }

  lemma NoAttrs(want: string)
    ensures AttrValue("", want) == None
  {
  }

  lemma ValidParts(a: Attr)
    requires ValidAttr(a)
    ensures Spaces(a.before) && ValidName(a.name)
  {
  }

  /** So too when the space before the first attribute is trimmed, as the
      scanner hands them on. */
  lemma TagAttrsRead(attrs: seq<Attr>, want: string)
    requires forall k :: 0 <= k < |attrs| ==> ValidAttr(attrs[k])
    ensures AttrValue(TrimStart(PrintAttrs(attrs)), want) == ValueOf(attrs, want)
  {
    hide ValidAttr, PrintAttr, NextAttr, LocalOf, Qualified, TrimStart, Spaces, All;
    if attrs == [] {
      TrimNothing();
      NoAttrs(want);
    } else {
      var a := attrs[0];
      var rest := PrintAttrs(attrs[1..]);
      assert ValidAttr(a);
      ValidParts(a);
      PrintedAttr(a, rest);
      var body := Qualified(a.name) + (a.left + ("=" + (a.right + ([a.quote] + (a.value + ([a.quote] + rest))))));
      SpacesWhite(a.before);
      NameIsBare(a.name);
      FirstNotWhite(Qualified(a.name));
      TrimStartIs(a.before, body);
      AttrRead(a, "", rest) by {
        NoSpaces();
      }
      assert "" + body == body;
      AttrsRead(attrs[1..], want);
      LocalOfQualified(a.name);
    }
  }

  lemma TrimNothing()
    ensures TrimStart("") == ""
  {
  }

  lemma NoSpaces()
    ensures Spaces("")
  {
  }

  lemma FirstNotWhite(q: string)
    requires q != "" && All(q, c => Bare(c))
    ensures !White(q[0])
  {
    assert Bare(q[0]);
  }

  // ---------------------------------------------------------------- prefixes do not matter

  /** What the detectors look at in a start tag: its local name, and the value
      for a local name. */
  datatype Sight = Sight(local: string, values: seq<(string, string)>)

  function SightOf(x: Item): Sight
    requires x.Tag?
  {
    Sight(x.name.local, Values(x.attrs))
  }

  function Values(attrs: seq<Attr>): seq<(string, string)> {
    if attrs == [] then [] else [(attrs[0].name.local, attrs[0].value)] + Values(attrs[1..])
  }

  function Sights(items: seq<Item>): seq<Sight> {
    if items == [] then [] else (if items[0].Tag? then [SightOf(items[0])] else []) + Sights(items[1..])
  }

  function LookUp(values: seq<(string, string)>, want: string): Option<string> {
    if values == [] then None else if values[0].0 == want then Some(values[0].1) else LookUp(values[1..], want)
  }

  lemma {:induction false} ValuesLookUp(attrs: seq<Attr>, want: string)
    ensures ValueOf(attrs, want) == LookUp(Values(attrs), want)
  {
    if attrs != [] {
      ValuesLookUp(attrs[1..], want);
      assert Values(attrs)[1..] == Values(attrs[1..]);
    }
  }

  lemma {:induction false} SightsAre(items: seq<Item>, k: nat, want: string)
    requires Scannable(items) && k < |TagsOf(items)|
    ensures |Sights(items)| == |TagsOf(items)|
    ensures TagsOf(items)[k].local == Sights(items)[k].local
    ensures AttrValue(TagsOf(items)[k].attrs, want) == LookUp(Sights(items)[k].values, want)
  {
    hide AttrValue, ValidItem, ReadsRight, Values, LookUp, TrimStart;
    var x := items[0];
    var first := if x.Tag? then 1 else 0;
    assert Scannable(items[1..]) by {
      assert forall j :: 0 <= j < |items[1..]| ==> items[1..][j] == items[j + 1];
    }
    if k < first {
      assert ValidItem(items[0]);
      TagItem(x, want);
      SameCount(items);
    } else {
      SightsAre(items[1..], k - first, want);
      assert TagsOf(items)[k] == TagsOf(items[1..])[k - first];
      assert Sights(items)[k] == Sights(items[1..])[k - first];
    }
  }

  lemma TagItem(x: Item, want: string)
    requires x.Tag? && ValidItem(x)
    ensures AttrValue(TagFor(x).attrs, want) == LookUp(SightOf(x).values, want)
  {
    hide AttrValue, LookUp, TrimStart, ValidAttr;
    TagAttrsRead(x.attrs, want);
    ValuesLookUp(x.attrs, want);
  }

  lemma {:induction false} SameCount(items: seq<Item>)
    ensures |Sights(items)| == |TagsOf(items)|
  {
    if items != [] {
      SameCount(items[1..]);
    }
  }

  /** Two documents that differ only in prefixes, quotes, spacing, comments and
      text look the same to every detector. */
  lemma PrefixesDoNotMatter(a: seq<Item>, b: seq<Item>, want: string)
    requires Scannable(a) && Scannable(b) && Sights(a) == Sights(b)
    ensures var s, t := StartTags(Print(a)), StartTags(Print(b));
            && |s| == |t|
            && forall k :: 0 <= k < |s| ==> s[k].local == t[k].local && AttrValue(s[k].attrs, want) == AttrValue(t[k].attrs, want)
  {
    hide StartTags, Print, AttrValue, LookUp;
    ScansExactly(a);
    ScansExactly(b);
    SameCount(a);
    SameCount(b);
    forall k | 0 <= k < |TagsOf(a)|
      ensures TagsOf(a)[k].local == TagsOf(b)[k].local
      ensures AttrValue(TagsOf(a)[k].attrs, want) == AttrValue(TagsOf(b)[k].attrs, want)
    {
      SightsAre(a, k, want);
      SightsAre(b, k, want);
    }
  }
}
