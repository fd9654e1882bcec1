/** Styled runs printed as OpenDocument paragraphs and spans, and read back. */
module OdpRuns {
  import opened Engine
  import opened Sequences

  const NEWLINE: char := '\n'

  /** A break within a paragraph. */
  const BREAK: char := '\U{2028}'

  /** Markup as the reader meets it. A style by its number, from 1. */
  datatype Event = ParaOpen | ParaClose | SpanOpen(n: nat) | SpanClose | Text(s: string) | Entity(c: char) | LineBreak

  // ---------------------------------------------------------------- text with its styles

  type Styled = seq<(char, RunStyle)>

  function StyledText(s: string, style: RunStyle): (r: Styled)
    ensures |r| == |s| && forall i :: 0 <= i < |s| ==> r[i] == (s[i], style)
  {
    seq(|s|, i requires 0 <= i < |s| => (s[i], style))
  }

  function StyledRuns(runs: seq<TextRun>): Styled {
    if runs == [] then [] else StyledRuns(runs[..|runs| - 1]) + StyledText(runs[|runs| - 1].text, runs[|runs| - 1].style)
  }

  function Chars(t: Styled): (s: string)
    ensures |s| == |t| && forall i :: 0 <= i < |t| ==> s[i] == t[i].0
  {
    seq(|t|, i requires 0 <= i < |t| => t[i].0)
  }

  /** All but the paragraph breaks. */
  function NonBreaks(t: Styled): Styled {
    if t == [] then []
    else NonBreaks(t[..|t| - 1]) + if t[|t| - 1].0 == NEWLINE then [] else [t[|t| - 1]]
  }

  /** The text of runs, one after another. */
  function RunText(runs: seq<TextRun>): string {
    if runs == [] then "" else RunText(runs[..|runs| - 1]) + runs[|runs| - 1].text
  }

  /** Without the paragraph breaks it begins with. */
  function Stripped(s: string): string {
    if s != "" && s[0] == NEWLINE then Stripped(s[1..]) else s
  }

  function Joined(lines: seq<string>): string {
    if lines == [] then ""
    else if |lines| == 1 then lines[0]
    else Joined(lines[..|lines| - 1]) + [NEWLINE] + lines[|lines| - 1]
  }

  lemma {:induction false} CharsOfRuns(runs: seq<TextRun>)
    ensures Chars(StyledRuns(runs)) == RunText(runs)
  {
    if runs != [] {
      CharsOfRuns(runs[..|runs| - 1]);
    }
  }

  lemma {:induction false} NonBreaksJoin(a: Styled, b: Styled)
    ensures NonBreaks(a + b) == NonBreaks(a) + NonBreaks(b)
  {
    if b == [] {
      assert a + b == a;
    } else {
      NonBreaksJoin(a, b[..|b| - 1]);
      assert (a + b)[..|a + b| - 1] == a + b[..|b| - 1];
      var last := if b[|b| - 1].0 == NEWLINE then [] else [b[|b| - 1]];
      assert (NonBreaks(a) + NonBreaks(b[..|b| - 1])) + last == NonBreaks(a) + (NonBreaks(b[..|b| - 1]) + last);
    }
  }

  lemma {:induction false} StrippedGrows(s: string, t: string)
    ensures Stripped(s) != "" ==> Stripped(s + t) == Stripped(s) + t
    ensures Stripped(s) == "" && t != "" && t[0] != NEWLINE ==> Stripped(s + t) == t
    ensures Stripped(s) == "" && t == [NEWLINE] ==> Stripped(s + t) == ""
  {
    if s != "" && s[0] == NEWLINE {
      StrippedGrows(s[1..], t);
      assert (s + t)[1..] == s[1..] + t;
    } else if s == "" {
      assert s + t == t;
      if t == [NEWLINE] {
        assert t[1..] == "";
      }
    }
  }

  /** Stripping does nothing exactly when the first paragraph is not empty,
      or there is no second. */
  lemma StrippedSame(s: string)
    ensures Stripped(s) == s <==> s == "" || s[0] != NEWLINE
  {
    if s != "" && s[0] == NEWLINE {
      StrippedShort(s[1..]);
    }
  }

  lemma {:induction false} StrippedShort(s: string)
    ensures |Stripped(s)| <= |s|
  {
    if s != "" && s[0] == NEWLINE {
      StrippedShort(s[1..]);
    }
  }

  // ---------------------------------------------------------------- reading

  datatype Reading = Reading(lines: seq<string>, runs: seq<TextRun>, span: Option<RunStyle>, inText: bool)

  const NOTHING_READ := Reading([], [], None, false)

  /** Start a paragraph: the break before it goes inside the last run, if there is one. */
  function OpenParagraph(r: Reading): Reading {
    var last := |r.runs| - 1;
    r.(runs := if r.runs == [] then [] else r.runs[last := r.runs[last].(text := r.runs[last].text + [NEWLINE])],
       lines := r.lines + [""])
  }

  /** Text in an open paragraph: a run of its own, in the span's look. */
  function Push(r: Reading, s: string): Reading {
    if !r.inText then r
    else
      var lines := if r.lines == [] then [] else r.lines[|r.lines| - 1 := r.lines[|r.lines| - 1] + s];
      r.(lines := lines, runs := if s == "" then r.runs else r.runs + [TextRun(s, if r.span.Some? then r.span.value else PLAIN)])
  }

  function ReadEvent(r: Reading, e: Event, styles: seq<RunStyle>): Reading {
    match e
    case ParaOpen => OpenParagraph(r).(inText := true)
    case ParaClose => r.(inText := false)
    case SpanOpen(n) => r.(span := if 0 < n <= |styles| then Some(styles[n - 1]) else None)
    case SpanClose => r.(span := None)
    case Text(s) => Push(r, s)
    case Entity(c) => Push(r, [c])
    case LineBreak => Push(r, [BREAK])
  }

  function ReadAll(events: seq<Event>, styles: seq<RunStyle>): Reading
    decreases |events|
  {
    if events == [] then NOTHING_READ
    else ReadEvent(ReadAll(events[..|events| - 1], styles), events[|events| - 1], styles)
  }

  lemma ReadMore(events: seq<Event>, e: Event, styles: seq<RunStyle>)
    ensures ReadAll(events + [e], styles) == ReadEvent(ReadAll(events, styles), e, styles)
  {
    assert (events + [e])[..|events|] == events;
  }

  /** `r` holds exactly the text `done`: in its lines all of it, in its runs
      all but leading breaks, each character but a break in its style. */
  ghost predicate Holds(r: Reading, done: Styled) {
    && r.lines != []
    && Joined(r.lines) == Chars(done)
    && RunText(r.runs) == Stripped(Chars(done))
    && NonBreaks(StyledRuns(r.runs)) == NonBreaks(done)
    && (r.runs == [] <==> RunText(r.runs) == "")
  }

  lemma JoinedPush(lines: seq<string>, s: string)
    requires lines != []
    ensures Joined(lines[|lines| - 1 := lines[|lines| - 1] + s]) == Joined(lines) + s
  {
    var n := |lines| - 1;
    var more := lines[n := lines[n] + s];
    assert more[..n] == lines[..n];
    if n > 0 {
      assert Joined(lines[..n]) + [NEWLINE] + (lines[n] + s) == Joined(lines[..n]) + [NEWLINE] + lines[n] + s;
    }
  }

  lemma RunsPush(runs: seq<TextRun>, run: TextRun)
    ensures RunText(runs + [run]) == RunText(runs) + run.text
    ensures StyledRuns(runs + [run]) == StyledRuns(runs) + StyledText(run.text, run.style)
  {
    assert (runs + [run])[..|runs|] == runs;
  }

  lemma CharsJoin(a: Styled, b: Styled)
    ensures Chars(a + b) == Chars(a) + Chars(b)
  {
  }

  /** Text with no break, pushed: held with what was. */
  lemma PushHolds(r: Reading, done: Styled, s: string)
    requires Holds(r, done) && r.inText && NEWLINE !in s
    ensures Holds(Push(r, s), done + StyledText(s, if r.span.Some? then r.span.value else PLAIN))
  {
    hide Joined, RunText, StyledRuns, NonBreaks, Stripped;
    var style := if r.span.Some? then r.span.value else PLAIN;
    var more := StyledText(s, style);
    JoinedPush(r.lines, s);
    CharsJoin(done, more);
    assert Chars(more) == s;
    if s == "" {
      assert done + more == done;
      assert Joined(r.lines) + "" == Joined(r.lines);
    } else {
      RunsPush(r.runs, TextRun(s, style));
      StrippedGrows(Chars(done), s);
      assert s[0] in s;
      assert RunText(r.runs) == "" ==> RunText(r.runs) + s == s;
      NonBreaksJoin(done, more);
      NonBreaksJoin(StyledRuns(r.runs), more);
      RunTextGrows(r.runs, TextRun(s, style));
    }
  }

  lemma RunTextGrows(runs: seq<TextRun>, run: TextRun)
    requires run.text != ""
    ensures RunText(runs + [run]) != ""
  {
    RunsPush(runs, run);
  }

  lemma BrokenRuns(runs: seq<TextRun>)
    requires runs != []
    ensures var n := |runs| - 1;
            var more := runs[n := runs[n].(text := runs[n].text + [NEWLINE])];
            RunText(more) == RunText(runs) + [NEWLINE]
            && StyledRuns(more) == StyledRuns(runs) + [(NEWLINE, runs[n].style)]
  {
    var n := |runs| - 1;
    var more := runs[n := runs[n].(text := runs[n].text + [NEWLINE])];
    assert more[..n] == runs[..n];
    assert RunText(runs[..n]) + (runs[n].text + [NEWLINE]) == RunText(runs[..n]) + runs[n].text + [NEWLINE];
    var a, b := StyledText(runs[n].text, runs[n].style), StyledText(runs[n].text + [NEWLINE], runs[n].style);
    assert b == a + [(NEWLINE, runs[n].style)];
    assert StyledRuns(runs[..n]) + (a + [(NEWLINE, runs[n].style)]) == StyledRuns(runs[..n]) + a + [(NEWLINE, runs[n].style)];
  }

  lemma OneBreak(style: RunStyle)
    ensures NonBreaks([(NEWLINE, style)]) == []
  {
    assert [(NEWLINE, style)][..0] == [];
  }

  /** A paragraph opened after another: a break held. */
  lemma OpenHolds(r: Reading, done: Styled, style: RunStyle)
    requires Holds(r, done)
    ensures Holds(OpenParagraph(r), done + [(NEWLINE, style)])
  {
    hide RunText, StyledRuns, NonBreaks, Stripped;
    var more := [(NEWLINE, style)];
    CharsJoin(done, more);
    assert Chars(more) == [NEWLINE];
    assert (r.lines + [""])[..|r.lines|] == r.lines;
    assert Joined(r.lines + [""]) == Joined(r.lines) + [NEWLINE];
    StrippedGrows(Chars(done), [NEWLINE]);
    NonBreaksJoin(done, more);
    OneBreak(style);
    if r.runs != [] {
      BrokenRuns(r.runs);
      var last := r.runs[|r.runs| - 1].style;
      NonBreaksJoin(StyledRuns(r.runs), [(NEWLINE, last)]);
      OneBreak(last);
    }
  }

  // ---------------------------------------------------------------- printing

  predicate Special(c: char) {
    c == '&' || c == '<' || c == '>' || c == '"'
  }

  predicate Ordinary(c: char) {
    !Special(c) && c != BREAK
  }

  /** The length of the longest start of `s` that is one stretch of text. */
  function Stretch(s: string): (n: nat)
    ensures n <= |s|
    ensures s != "" && Ordinary(s[0]) ==> n > 0
  {
    if s == "" || !Ordinary(s[0]) then 0 else 1 + Stretch(s[1..])
  }

  /** Escaped text as the reader meets it: stretches of text, an entity for
      each escaped character, an element for each line break. */
  function Tokens(s: string): seq<Event>
    decreases |s|
  {
    if s == "" then []
    else if s[0] == BREAK then [LineBreak] + Tokens(s[1..])
    else if Special(s[0]) then [Entity(s[0])] + Tokens(s[1..])
    else [Text(s[..Stretch(s)])] + Tokens(s[Stretch(s)..])
  }

  /** What printed text leaves as it is has none of the characters XML sets
      apart, and no break; each entity stands for one of those characters. */
  ghost predicate Escaped(e: Event) {
    match e
    case Text(t) => '&' !in t && '<' !in t && '>' !in t && '"' !in t && BREAK !in t
    case Entity(c) => c in "&<>\""
    case _ => e == LineBreak
  }

  lemma {:induction false} StretchOrdinary(s: string)
    ensures forall c :: c in s[..Stretch(s)] ==> Ordinary(c)
  {
    if s != "" && Ordinary(s[0]) {
      StretchOrdinary(s[1..]);
      assert s[..Stretch(s)] == [s[0]] + s[1..][..Stretch(s[1..])];
    }
  }

  lemma {:induction false} TokensEscaped(s: string)
    ensures forall e :: e in Tokens(s) ==> Escaped(e)
    decreases |s|
  {
    if s != "" {
      StretchOrdinary(s);
      TokensEscaped(s[if s[0] == BREAK || Special(s[0]) then 1 else Stretch(s)..]);
    }
  }

  lemma ReadJoined(a: seq<Event>, e: Event, b: seq<Event>)
    ensures a + ([e] + b) == (a + [e]) + b
  {
  }

  lemma StyledSplit(s: string, n: nat, style: RunStyle)
    requires n <= |s|
    ensures StyledText(s, style) == StyledText(s[..n], style) + StyledText(s[n..], style)
  {
  }

  /** The first event of printed text, and what it stands for. */
  lemma FirstToken(s: string) returns (n: nat, e: Event)
    requires s != "" && NEWLINE !in s
    ensures 0 < n <= |s| && Tokens(s) == [e] + Tokens(s[n..])
    ensures forall r, styles :: ReadEvent(r, e, styles) == Push(r, s[..n])
    ensures NEWLINE !in s[..n] && NEWLINE !in s[n..]
  {
    n := if s[0] == BREAK || Special(s[0]) then 1 else Stretch(s);
    e := if s[0] == BREAK then LineBreak else if Special(s[0]) then Entity(s[0]) else Text(s[..n]);
    assert s[..1] == [s[0]];
    assert forall c :: c in s[..n] ==> c in s;
    assert forall c :: c in s[n..] ==> c in s;
  }

  /** Reading a stretch of printed text with no break holds it, in the span's look. */
  lemma {:induction false} TokensRead(before: seq<Event>, s: string, done: Styled, styles: seq<RunStyle>)
    requires Holds(ReadAll(before, styles), done) && ReadAll(before, styles).inText && NEWLINE !in s
    ensures var r := ReadAll(before, styles);
            var q := ReadAll(before + Tokens(s), styles);
            Holds(q, done + StyledText(s, if r.span.Some? then r.span.value else PLAIN)) && q.inText && q.span == r.span
    decreases |s|
  {
    hide Holds, ReadAll, Tokens, ReadEvent;
    var r := ReadAll(before, styles);
    var style := if r.span.Some? then r.span.value else PLAIN;
    if s == "" {
      NoTokens();
      assert before + Tokens(s) == before;
      assert done + StyledText(s, style) == done;
    } else {
      var n, e := FirstToken(s);
      ReadMore(before, e, styles);
      PushHolds(r, done, s[..n]);
      var mid := done + StyledText(s[..n], style);
      TokensRead(before + [e], s[n..], mid, styles);
      ReadJoined(before, e, Tokens(s[n..]));
      StyledSplit(s, n, style);
      assert mid + StyledText(s[n..], style) == done + (StyledText(s[..n], style) + StyledText(s[n..], style));
    }
  }

  lemma NoTokens()
    ensures Tokens("") == []
  {
  }

  /** The first position of `style`, counted from 1; 0 if it is not there. */
  function StyleNumber(styles: seq<RunStyle>, style: RunStyle): (n: nat)
    ensures style in styles ==> 0 < n <= |styles| && styles[n - 1] == style
  {
    if styles == [] then 0
    else if styles[0] == style then 1
    else
      var rest := StyleNumber(styles[1..], style);
      if rest == 0 then 0 else rest + 1
  }

  function RunSpan(s: string, style: RunStyle, styles: seq<RunStyle>): seq<Event> {
    if style == PLAIN then Tokens(s) else [SpanOpen(StyleNumber(styles, style))] + Tokens(s) + [SpanClose]
  }

  lemma SpanSame(r: Reading, done: Styled, span: Option<RunStyle>)
    requires Holds(r, done)
    ensures Holds(r.(span := span), done)
  {
  }

  /** A run's stretch, printed in its span and read: held in its own style. */
  lemma SpanRead(before: seq<Event>, s: string, style: RunStyle, done: Styled, styles: seq<RunStyle>)
    requires Holds(ReadAll(before, styles), done) && ReadAll(before, styles).inText && ReadAll(before, styles).span == None
    requires NEWLINE !in s && (style == PLAIN || style in styles)
    ensures var q := ReadAll(before + RunSpan(s, style, styles), styles);
            Holds(q, done + StyledText(s, style)) && q.inText && q.span == None
  {
    hide Tokens, Holds, ReadAll, StyleNumber;
    if style == PLAIN {
      TokensRead(before, s, done, styles);
    } else {
      var open := SpanOpen(StyleNumber(styles, style));
      ReadMore(before, open, styles);
      SpanSame(ReadAll(before, styles), done, Some(style));
      TokensRead(before + [open], s, done, styles);
      ReadMore(before + [open] + Tokens(s), SpanClose, styles);
      SpanSame(ReadAll(before + [open] + Tokens(s), styles), done + StyledText(s, style), None);
      assert before + RunSpan(s, style, styles) == before + [open] + Tokens(s) + [SpanClose];
    }
  }

  /** `s` cut at its paragraph breaks. */
  function Pieces(s: string): (r: seq<string>)
    ensures r != []
    decreases |s|
  {
    if s == "" then [""]
    else
      var rest := Pieces(s[..|s| - 1]);
      if s[|s| - 1] == NEWLINE then rest + [""] else rest[|rest| - 1 := rest[|rest| - 1] + [s[|s| - 1]]]
  }

  /** No piece has a break, and joined they are the text. */
  lemma {:induction false} PiecesAre(s: string)
    ensures Joined(Pieces(s)) == s && forall i :: 0 <= i < |Pieces(s)| ==> NEWLINE !in Pieces(s)[i]
    decreases |s|
  {
    if s != "" {
      var n := |s| - 1;
      PiecesAre(s[..n]);
      var rest := Pieces(s[..n]);
      assert s == s[..n] + [s[n]];
      if s[n] == NEWLINE {
        assert (rest + [""])[..|rest|] == rest;
      } else {
        JoinedPush(rest, [s[n]]);
      }
    }
  }

  lemma JoinedMore(lines: seq<string>, k: nat)
    requires 0 < k < |lines|
    ensures Joined(lines[..k + 1]) == Joined(lines[..k]) + [NEWLINE] + lines[k]
  {
    assert lines[..k + 1][..k] == lines[..k];
  }

  /** `s` is used before `t` is. */
  predicate UsedBefore(runs: seq<TextRun>, s: RunStyle, t: RunStyle) {
    exists i :: 0 <= i < |runs| && runs[i].style == s && forall j :: 0 <= j <= i ==> runs[j].style != t
  }

  /** The distinct styles of runs, the default apart, in first-use order. */
  method DistinctStyles(runs: seq<TextRun>) returns (styles: seq<RunStyle>)
    ensures NoDup(styles) && PLAIN !in styles
    ensures forall r :: r in runs ==> r.style == PLAIN || r.style in styles
    ensures forall s :: s in styles ==> exists r :: r in runs && r.style == s
    ensures forall a, b :: 0 <= a < b < |styles| ==> UsedBefore(runs, styles[a], styles[b])
  {
    styles := [];
    var i := 0;
    while i < |runs|
      invariant 0 <= i <= |runs| && NoDup(styles) && PLAIN !in styles
      invariant forall j :: 0 <= j < i ==> runs[j].style == PLAIN || runs[j].style in styles
      invariant forall s :: s in styles ==> exists j :: 0 <= j < i && runs[j].style == s
      invariant forall a, b :: 0 <= a < b < |styles| ==> UsedBefore(runs, styles[a], styles[b])
    {
      if runs[i].style != PLAIN && runs[i].style !in styles {
        forall a | 0 <= a < |styles|
          ensures UsedBefore(runs, styles[a], runs[i].style)
        {
          assert styles[a] in styles;
          var j :| 0 <= j < i && runs[j].style == styles[a];
          assert forall k :: 0 <= k <= j ==> runs[k].style != runs[i].style;
        }
        styles := styles + [runs[i].style];
      }
      i := i + 1;
    }
  }

  /** What is printed so far, with the paragraph being printed open. */
  ghost predicate Printed(out: seq<Event>, para: seq<Event>, done: Styled, styles: seq<RunStyle>) {
    var r := ReadAll(out + [ParaOpen] + para, styles);
    Holds(r, done) && r.inText && r.span == None
  }

  lemma PrintedSpan(out: seq<Event>, para: seq<Event>, done: Styled, s: string, style: RunStyle, styles: seq<RunStyle>)
    requires Printed(out, para, done, styles) && NEWLINE !in s && (style == PLAIN || style in styles)
    ensures Printed(out, para + RunSpan(s, style, styles), done + StyledText(s, style), styles)
  {
    hide Holds, RunSpan;
    var before := out + [ParaOpen] + para;
    SpanRead(before, s, style, done, styles);
    assert before + RunSpan(s, style, styles) == out + [ParaOpen] + (para + RunSpan(s, style, styles));
  }

  lemma PrintedBreak(out: seq<Event>, para: seq<Event>, done: Styled, style: RunStyle, styles: seq<RunStyle>)
    requires Printed(out, para, done, styles)
    ensures Printed(out + [ParaOpen] + para + [ParaClose], [], done + [(NEWLINE, style)], styles)
  {
    hide Holds;
    var before := out + [ParaOpen] + para;
    ReadMore(before, ParaClose, styles);
    ReadMore(before + [ParaClose], ParaOpen, styles);
    OpenHolds(ReadAll(before, styles).(inText := false), done, style) by {
      ClosedHolds(ReadAll(before, styles), done);
    }
    OpenSame(ReadAll(before, styles).(inText := false), done + [(NEWLINE, style)]);
    assert out + [ParaOpen] + para + [ParaClose] + [ParaOpen] + [] == before + [ParaClose] + [ParaOpen];
  }

  lemma ClosedHolds(r: Reading, done: Styled)
    requires Holds(r, done)
    ensures Holds(r.(inText := false), done)
  {
  }

  lemma OpenSame(r: Reading, done: Styled)
    requires Holds(OpenParagraph(r), done)
    ensures Holds(OpenParagraph(r).(inText := true), done)
  {
  }

  /** Runs printed as paragraphs: read back, the lines are the whole text, the
      runs the text without the breaks it begins with, and every character
      other than a paragraph break has the style it had. */
  method StyledParagraphs(runs: seq<TextRun>, styles: seq<RunStyle>) returns (out: seq<Event>)
    requires forall r :: r in runs ==> r.style == PLAIN || r.style in styles
    ensures var r := ReadAll(out, styles);
            && Joined(r.lines) == RunText(runs)
            && RunText(r.runs) == Stripped(RunText(runs))
            && NonBreaks(StyledRuns(r.runs)) == NonBreaks(StyledRuns(runs))
  {
    hide Holds, ReadAll, RunSpan, Joined;
    out := [];
    var para: seq<Event> := [];
    ghost var done: Styled := [];
    FirstOpened(styles);
    var i := 0;
    while i < |runs|
      invariant 0 <= i <= |runs| && Printed(out, para, done, styles) && done == StyledRuns(runs[..i])
    {
      var run := runs[i];
      assert run in runs;
      var pieces := Pieces(run.text);
      PiecesAre(run.text);
      if pieces[0] != "" {
        PrintedSpan(out, para, done, pieces[0], run.style, styles);
        para := para + RunSpan(pieces[0], run.style, styles);
      } else {
        assert done + StyledText("", run.style) == done;
      }
      done := done + StyledText(pieces[0], run.style);
      ghost var was := StyledRuns(runs[..i]);
      FirstPiece(pieces);
      var k := 1;
      while k < |pieces|
        invariant 0 < k <= |pieces| && Printed(out, para, done, styles)
        invariant done == was + StyledText(Joined(pieces[..k]), run.style)
      {
        PrintedBreak(out, para, done, run.style, styles);
        out := out + [ParaOpen] + para + [ParaClose];
        para := [];
        done := done + [(NEWLINE, run.style)];
        if pieces[k] != "" {
          PrintedSpan(out, para, done, pieces[k], run.style, styles);
          para := para + RunSpan(pieces[k], run.style, styles);
        } else {
          assert done + StyledText("", run.style) == done;
        }
        done := done + StyledText(pieces[k], run.style);
        JoinedMore(pieces, k);
        PieceDone(was, Joined(pieces[..k]), pieces[k], run.style);
        k := k + 1;
      }
      assert pieces[..k] == pieces;
      assert runs[..i + 1][..i] == runs[..i];
      i := i + 1;
    }
    assert runs[..i] == runs;
    CharsOfRuns(runs);
    PrintedAll(out, para, done, styles);
    out := out + [ParaOpen] + para + [ParaClose];
  }

  lemma FirstOpened(styles: seq<RunStyle>)
    ensures Printed([], [], [], styles)
  {
    assert [] + [ParaOpen] + [] == [] + [ParaOpen];
    ReadMore([], ParaOpen, styles);
    assert ReadAll([], styles) == NOTHING_READ;
    assert [""] == [] + [""];
    assert Stripped("") == "";
  }

  lemma FirstPiece(pieces: seq<string>)
    requires pieces != []
    ensures Joined(pieces[..1]) == pieces[0]
  {
  }

  lemma PieceDone(was: Styled, joined: string, piece: string, style: RunStyle)
    ensures was + StyledText(joined, style) + [(NEWLINE, style)] + StyledText(piece, style)
         == was + StyledText(joined + [NEWLINE] + piece, style)
  {
    assert StyledText(joined + [NEWLINE] + piece, style) == StyledText(joined, style) + [(NEWLINE, style)] + StyledText(piece, style);
  }

  lemma PrintedAll(out: seq<Event>, para: seq<Event>, done: Styled, styles: seq<RunStyle>)
    requires Printed(out, para, done, styles)
    ensures var r := ReadAll(out + [ParaOpen] + para + [ParaClose], styles);
            && Joined(r.lines) == Chars(done)
            && RunText(r.runs) == Stripped(Chars(done))
            && NonBreaks(StyledRuns(r.runs)) == NonBreaks(done)
  {
    ReadMore(out + [ParaOpen] + para, ParaClose, styles);
  }
}
