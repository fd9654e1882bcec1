/** Failed groups: they leave tombstones in the editor's deck that the replica
    never hears of. As long as no op mints an id where the two decks would mint
    different ones, editor and replica hold one deck up to tombstones. */
module ReplicaDrift {
  import opened Engine
  import opened Sequences
  import opened Ops
  import opened Numbering
  import opened OpLaws
  import opened GroupLaws
  import opened Inverses
  import opened GroupUndo
  import opened Identity
  import opened Shortfalls
  import opened Timeline
  import opened Tree
  import opened Replicas
  import opened ReplicaRel
  import opened ReplicaOps
  import opened ReplicaEdits
  import opened ReplicaSteps
  import opened ReplicaShows
  import opened ReplicaLine
  import opened ReplicaRuns

  // ---------------------------------------------------------------- decks alike

  /** The same up to tombstones, of which `d` may have more. */
  ghost predicate Alike(r: seq<Slide>, d: seq<Slide>) {
    Erase(r) == Erase(d) && Ids(r) <= Ids(d)
  }

  /** `op` mints no id, or mints it alike on both decks. */
  ghost predicate MintsOne(r: seq<Slide>, d: seq<Slide>, op: Op) {
    Carrying(op) || MaxId(r) == MaxId(d)
  }

  /** The ids an op adds to a deck when it applies. */
  ghost function Adds(deck: seq<Slide>, op: Op): set<nat> {
    if Apply(deck, op).reply.Err? || Apply(deck, op).reply.value == [] then {}
    else if op.InsertObject? then {op.id}
    else if op.InsertSlide? && op.at <= |deck| then IdSet(Inserted(deck, op.at, op.page))
    else {}
  }

  lemma IdsEditedExactly(s: Slide, op: Op)
    requires ReadySlide(s) && OnOneSlide(op)
    ensures IdSet(Edit(s, op).0) == IdSet(s) + (if op.InsertObject? && Edit(s, op).1.Ok? then {op.id} else {})
  {
    IdsEdited(s, op);
    if op.InsertObject? && Edit(s, op).1.Ok? {
      assert Edit(s, op).0.ids.objects[op.at] == op.id;
    }
  }

  lemma IdsWith(slides: seq<Slide>, i: nat, t: Slide)
    requires i < |slides| && IdSet(slides[i]) <= IdSet(t)
    ensures Ids(slides[i := t]) == Ids(slides) + IdSet(t)
  {
    IdsUpdated(slides, i, t);
    IdsAt(slides[i := t], i);
  }

  /** An op adds exactly those ids, and loses none. */
  lemma IdsAfter(deck: seq<Slide>, op: Op)
    requires Ready(deck)
    ensures Ids(Apply(deck, op).slides) == Ids(deck) + Adds(deck, op)
  {
    hide Edit, Bury, Remove, Insert, Relocate, Inserted, Ids, IdSet, Ready;
    ReadyStays(deck);
    match op
    case SetMaster(_, _) =>
    case InsertSlide(at, page) =>
      if at <= |deck| && (page.ids.slide == 0 || SlidePos(deck, page.ids.slide).None?) {
        InsertSlideIs(deck, at, page);
        IdsPutIn(deck, at, Inserted(deck, at, page));
      }
    case DeleteSlide(slide) =>
      var i := SlidePos(deck, slide);
      if i.Some? && |deck| > 1 {
        IdsTakenOut(deck, i.value);
      }
    case MoveSlide(slide, to) =>
      var i := SlidePos(deck, slide);
      if i.Some? && to < |deck| {
        IdsRelocated(deck, i.value, to);
      }
    case _ =>
      OneSlideIs(deck, op);
      if SlidePos(deck, op.slide).Some? {
        IdsEditedAt(deck, SlidePos(deck, op.slide).value, op);
      }
  }

  lemma IdsPutIn(deck: seq<Slide>, at: nat, s: Slide)
    requires at <= |deck|
    ensures Ids(Insert(deck, at, s)) == Ids(deck) + IdSet(s)
  {
    InsertedIds(deck, at, s);
  }

  lemma IdsTakenOut(deck: seq<Slide>, i: nat)
    requires i < |deck| && |deck| > 1
    ensures Ids(Bury(Remove(deck, i), i, deck[i])) == Ids(deck)
  {
    IdsRemoved(deck, i);
    IdsBuried(Remove(deck, i), i, deck[i]);
  }

  lemma IdsEditedAt(deck: seq<Slide>, i: nat, op: Op)
    requires Ready(deck) && OnOneSlide(op) && i < |deck| && SlidePos(deck, op.slide) == Some(i)
    ensures var (t, reply) := Edit(deck[i], op);
            Ids(deck[i := t]) == Ids(deck) + (if op.InsertObject? && reply.Ok? && reply.value != [] then {op.id} else {})
  {
    IdsEditedExactly(deck[i], op);
    IdsWith(deck, i, Edit(deck[i], op).0);
    IdsAt(deck, i);
  }

  lemma MaxIdWith(a: seq<Slide>, b: seq<Slide>, a': seq<Slide>, b': seq<Slide>, x: set<nat>)
    requires MaxId(a) == MaxId(b) && Ids(a') == Ids(a) + x && Ids(b') == Ids(b) + x
    ensures MaxId(a') == MaxId(b')
  {
    MaxIdBounds(a);
    MaxIdBounds(b);
    MaxIdBounds(a');
    MaxIdBounds(b');
  }

  /** Decks that mint alike give a new slide the same ids. */
  lemma InsertedSame(a: seq<Slide>, b: seq<Slide>, at: nat, page: Slide)
    requires MaxId(a) == MaxId(b) && at <= |a| && at <= |b|
    ensures Inserted(a, at, page) == Inserted(b, at, page)
  {
    hide MaxId, Ids, AssignIds;
    var s := Numbered(a, page);
    assert s == Numbered(b, page);
    IdsPutIn(a, at, s);
    IdsPutIn(b, at, s);
    MaxIdWith(a, b, Insert(a, at, s), Insert(b, at, s), IdSet(s));
  }

  // ---------------------------------------------------------------- one op

  lemma InsertAlike(r: seq<Slide>, d: seq<Slide>, at: nat, page: Slide)
    requires Ready(r) && Erase(r) == Erase(d) && MintsOne(r, d, InsertSlide(at, page))
    ensures var op := InsertSlide(at, page);
            && Erase(Apply(r, op).slides) == Erase(Apply(d, op).slides) && Apply(r, op).reply == Apply(d, op).reply
            && Adds(r, op) == Adds(d, op)
  {
    hide Ops.Apply, Insert, Erase, Ready, Inserted, IdSet;
    SameErased(r, d);
    ErasedPos(r, page.ids.slide);
    ErasedPos(d, page.ids.slide);
    if at <= |r| && (page.ids.slide == 0 || SlidePos(r, page.ids.slide).None?) {
      if MaxId(r) == MaxId(d) {
        InsertedSame(r, d, at, page);
      } else {
        CarriedIn(r, at, page);
        CarriedIn(d, at, page);
      }
      InsertSlideIs(r, at, page);
      InsertSlideIs(d, at, page);
      ErasedInsert(r, at, Inserted(r, at, page));
      ErasedInsert(d, at, Inserted(d, at, page));
    } else {
      InsertRefused(r, at, page);
      InsertRefused(d, at, page);
    }
  }

  lemma InsertRefused(deck: seq<Slide>, at: nat, page: Slide)
    requires Ready(deck) && (at > |deck| || (page.ids.slide != 0 && SlidePos(deck, page.ids.slide).Some?))
    ensures Apply(deck, InsertSlide(at, page)) == Outcome(deck, Err(if at > |deck| then OutOfRange else Duplicate))
  {
    ReadyStays(deck);
  }

  /** An op that mints no id, or mints it on decks that mint alike, leaves
      them alike. */
  lemma OpAlike(r: seq<Slide>, d: seq<Slide>, op: Op)
    requires Ready(r) && Alike(r, d) && MintsOne(r, d, op)
    ensures EraseReply(Apply(r, op).reply) == EraseReply(Apply(d, op).reply)
    ensures Alike(Apply(r, op).slides, Apply(d, op).slides) && Ready(Apply(r, op).slides)
  {
    hide Ops.Apply, Erase, Ready, Ids, MaxId, Adds, Carrying, EraseReply;
    SameErased(r, d);
    ReadyAfter(r, op);
    IdsAfter(r, op);
    IdsAfter(d, op);
    if op.InsertSlide? {
      InsertAlike(r, d, op.at, op.page);
    } else {
      OthersCarry(op);
      ApplyIgnoresTombstones(r, op);
      ApplyIgnoresTombstones(d, op);
      AddsAlike(r, d, op);
    }
  }

  lemma OthersCarry(op: Op)
    requires !op.InsertSlide?
    ensures Carrying(op)
  {
  }

  lemma AddsAlike(r: seq<Slide>, d: seq<Slide>, op: Op)
    requires !op.InsertSlide? && EraseReply(Apply(r, op).reply) == EraseReply(Apply(d, op).reply)
    ensures Adds(r, op) == Adds(d, op)
  {
    hide Ops.Apply;
    ReplyLike(Apply(r, op).reply, Apply(d, op).reply);
  }

  /** Of a slide without ids, exactly so: put into decks alike, it leaves them
      alike if and only if they mint alike. */
  lemma MintExact(r: seq<Slide>, d: seq<Slide>, at: nat, page: Slide)
    requires Ready(r) && Alike(r, d) && at <= |r| && page.ids.slide == 0
    ensures Erase(Apply(r, InsertSlide(at, page)).slides) == Erase(Apply(d, InsertSlide(at, page)).slides)
            <==> MaxId(r) == MaxId(d)
  {
    hide Ops.Apply, Insert, Ready, Inserted, Ids;
    SameErased(r, d);
    InsertSlideIs(r, at, page);
    InsertSlideIs(d, at, page);
    if MaxId(r) == MaxId(d) {
      InsertAlike(r, d, at, page);
    } else {
      MintedNext(r, at, page);
      MintedNext(d, at, page);
      var a, b := Insert(r, at, Inserted(r, at, page)), Insert(d, at, Inserted(d, at, page));
      PutAt(r, at, Inserted(r, at, page));
      PutAt(d, at, Inserted(d, at, page));
      ErasedAt(a, b, at);
    }
  }

  lemma MintedNext(deck: seq<Slide>, at: nat, page: Slide)
    requires at <= |deck| && page.ids.slide == 0
    ensures Inserted(deck, at, page).ids.slide == NextId(deck)
  {
  }

  lemma ErasedAt(a: seq<Slide>, b: seq<Slide>, at: nat)
    requires at < |a| && at < |b|
    ensures Erase(a) == Erase(b) ==> a[at].ids.slide == b[at].ids.slide
  {
    assert |Erase(a)| == |a| && |Erase(b)| == |b|;
    assert Erase(a)[at] == EraseSlide(a[at]) && Erase(b)[at] == EraseSlide(b[at]);
  }

  lemma PutAt(deck: seq<Slide>, at: nat, s: Slide)
    requires at <= |deck|
    ensures |Insert(deck, at, s)| == |deck| + 1 && Insert(deck, at, s)[at] == s
  {
  }

  // ---------------------------------------------------------------- groups

  ghost predicate DocAlike(r: Doc, d: Doc) {
    r.masters == d.masters && Alike(r.slides, d.slides)
  }

  lemma DocOpAlike(r: Doc, d: Doc, op: Op)
    requires Ready(r.slides) && DocAlike(r, d) && MintsOne(r.slides, d.slides, op)
    ensures EraseReply(ApplyDoc(r, op).reply) == EraseReply(ApplyDoc(d, op).reply)
    ensures DocAlike(ApplyDoc(r, op).doc, ApplyDoc(d, op).doc) && Ready(ApplyDoc(r, op).doc.slides)
  {
    hide Ops.Apply, Erase, Ready, Ids, MaxId, Carrying, EraseReply;
    if !op.SetMaster? {
      OpAlike(r.slides, d.slides, op);
    }
  }

  /** No op of the group mints an id, unless on decks that mint alike. */
  ghost predicate MintsAlike(r: seq<Slide>, d: seq<Slide>, ops: seq<Op>)
    decreases |ops|
  {
    ops == [] || (
      && MintsOne(r, d, ops[0])
      && MintsAlike(Apply(r, ops[0]).slides, Apply(d, ops[0]).slides, ops[1..]))
  }

  lemma {:induction false} CarryingMints(r: seq<Slide>, d: seq<Slide>, ops: seq<Op>)
    requires CarryingAll(ops)
    ensures MintsAlike(r, d, ops)
    decreases |ops|
  {
    hide Ops.Apply, Carrying, MaxId;
    if ops != [] {
      CarryingMints(Apply(r, ops[0]).slides, Apply(d, ops[0]).slides, ops[1..]);
    }
  }

  /** The first op of such a group. */
  lemma FirstAlike(r: Doc, d: Doc, ops: seq<Op>)
    requires ops != [] && Ready(r.slides) && DocAlike(r, d) && MintsAlike(r.slides, d.slides, ops)
    ensures var p, q := ApplyDoc(r, ops[0]), ApplyDoc(d, ops[0]);
            && EraseReply(p.reply) == EraseReply(q.reply) && DocAlike(p.doc, q.doc) && Ready(p.doc.slides)
            && MintsAlike(p.doc.slides, q.doc.slides, ops[1..])
  {
    hide ApplyDoc, Ops.Apply, Ready, Carrying, MaxId, EraseReply, Erase, Ids;
    SameErased(r.slides, d.slides);
    DocOpAlike(r, d, ops[0]);
    OpIs(r, ops[0]);
    OpIs(d, ops[0]);
  }

  /** So does a group: the same error, or decks alike and inverses alike. */
  lemma {:induction false} GroupAlike(r: Doc, d: Doc, ops: seq<Op>)
    requires Ready(r.slides) && DocAlike(r, d) && MintsAlike(r.slides, d.slides, ops)
    ensures EraseReply(ApplyAll(r, ops).reply) == EraseReply(ApplyAll(d, ops).reply)
    ensures ApplyAll(r, ops).reply.Ok? ==> DocAlike(ApplyAll(r, ops).doc, ApplyAll(d, ops).doc)
    decreases |ops|
  {
    hide ApplyDoc, DocAlike, MintsAlike, Ready, EraseOps;
    if ops != [] {
      FirstAlike(r, d, ops);
      var p, q := ApplyDoc(r, ops[0]), ApplyDoc(d, ops[0]);
      if p.reply.Ok? {
        GroupAlike(p.doc, q.doc, ops[1..]);
        var x, y := ApplyAll(p.doc, ops[1..]).reply, ApplyAll(q.doc, ops[1..]).reply;
        if x.Ok? {
          ErasedJoin(x.value, p.reply.value);
          ErasedJoin(y.value, q.reply.value);
        }
      }
    }
  }

  lemma {:induction false} UndoableAlike(r: Doc, d: Doc, ops: seq<Op>)
    requires Ready(r.slides) && DocAlike(r, d) && MintsAlike(r.slides, d.slides, ops) && UndoableAll(d, ops)
    ensures UndoableAll(r, ops)
    decreases |ops|
  {
    hide ApplyDoc, Ids, MintsAlike, Ready, EraseReply, Undoable, Fits, Erase;
    if ops != [] {
      FirstAlike(r, d, ops);
      UndoableErased(d.slides, r.slides, ops[0]);
      var p, q := ApplyDoc(r, ops[0]), ApplyDoc(d, ops[0]);
      ReplyLike(p.reply, q.reply);
      if p.reply.Ok? {
        UndoableAlike(p.doc, q.doc, ops[1..]);
      }
    }
  }

  /** What is new to the editor is new to the replica. */
  lemma NewAlike(r: seq<Slide>, d: seq<Slide>, op: Op)
    requires Ready(r) && Alike(r, d) && MintsOne(r, d, op) && New(d, op)
    ensures New(r, op)
  {
    hide Inserted, Erase, Ids, MaxId;
    SameErased(r, d);
    if op.SetSlide? {
      SameSlideFacts(r, d, op.slide);
    } else if op.InsertSlide? && op.at <= |r| {
      InsertedSame(r, d, op.at, op.page);
    }
  }

  lemma {:induction false} NewAllAlike(r: seq<Slide>, d: seq<Slide>, ops: seq<Op>)
    requires Ready(r) && Alike(r, d) && MintsAlike(r, d, ops) && NewAll(d, ops)
    ensures NewAll(r, ops)
    decreases |ops|
  {
    hide Ops.Apply, Alike, Ready, Carrying, EraseReply, New, MaxId;
    if ops != [] {
      NewAlike(r, d, ops[0]);
      OpAlike(r, d, ops[0]);
      NewAllAlike(Apply(r, ops[0]).slides, Apply(d, ops[0]).slides, ops[1..]);
    }
  }

  // ---------------------------------------------------------------- runs

  /** The deck of a replica that is told of what the editor does: of edits that
      did something, and of steps undone and redone. */
  function DeckAfter(s: Session, deck: seq<Slide>, e: Event): seq<Slide> {
    match e
    case EditEvent(ops, _) =>
      var o := ApplyAll(s.doc, ops);
      if o.reply.Ok? && o.reply.value != [] then Told(deck, s.doc.masters, ops) else deck
    case UndoEvent =>
      if s.steps.undo != [] && Undo(s.steps, s.doc).done then Told(deck, s.doc.masters, Last(s.steps.undo)) else deck
    case RedoEvent =>
      if s.steps.redo != [] && Redo(s.steps, s.doc).done then Told(deck, s.doc.masters, Last(s.steps.redo)) else deck
  }

  function Told(deck: seq<Slide>, masters: seq<Master>, ops: seq<Op>): seq<Slide> {
    ApplyAll(Doc(deck, masters), ops).doc.slides
  }

  /** Every op of an edit can be undone; and of an edit that applies, what it
      puts in is new, its builds are of live objects, and it mints an id only
      where the replica's deck mints the same. */
  ghost predicate FairEdit(s: Session, deck: seq<Slide>, e: Event) {
    e.EditEvent? ==>
      && UndoableAll(s.doc, e.ops)
      && (ApplyAll(s.doc, e.ops).reply.Ok? ==> NewAll(s.doc.slides, e.ops) && MintsAlike(deck, s.doc.slides, e.ops))
  }

  ghost predicate FairRun(s: Session, deck: seq<Slide>, events: seq<Event>)
    decreases |events|
  {
    events == [] || (FairEdit(s, deck, events[0]) && FairRun(Do(s, events[0]), DeckAfter(s, deck, events[0]), events[1..]))
  }

  /** The editor as the replica knows it: its steps, on the replica's deck. */
  function Shadow(p: Peer): Peer {
    Peer(Session(p.session.steps, Doc(p.rep.deck, p.session.doc.masters)), p.rep)
  }

  /** The replica and its document are in step with the editor as it knows it,
      which is the editor but for tombstones. */
  ghost predicate Trails(p: Peer, a: Past) {
    Followed(Shadow(p), a) && HasLine(p.session) && Alike(p.rep.deck, p.session.doc.slides)
  }

  lemma ShadowFacts(p: Peer, a: Past)
    requires Trails(p, a)
    ensures Valid(p.rep.deck) && Ready(p.rep.deck) && Valid(p.session.doc.slides) && Ready(p.session.doc.slides)
    ensures DocAlike(Shadow(p).session.doc, p.session.doc)
  {
    hide Rel, Ids, MaxId, Settled, Stacked;
    DeckValid(p.rep, a);
    SameErased(p.rep.deck, p.session.doc.slides);
  }

  /** The editor's line carries over to the replica's deck. */
  lemma ShadowLine(s: Session, deck: seq<Slide>)
    requires HasLine(s) && Erase(deck) == Erase(s.doc.slides) && Valid(deck)
    ensures HasLine(Session(s.steps, Doc(deck, s.doc.masters)))
  {
    hide Erase, Valid, Link;
    var line :| OnLine(line, s.steps, s.doc);
    var doc := Doc(deck, s.doc.masters);
    Remarked(line, s.steps, s.doc, doc, s.steps.merge);
    assert OnLine(line, s.steps, doc);
  }

  lemma LineAfter(s: Session, e: Event)
    requires HasLine(s) && (e.EditEvent? ==> UndoableAll(s.doc, e.ops))
    ensures HasLine(Do(s, e))
  {
    hide OnLine, Do, UndoableAll;
    var line :| OnLine(line, s.steps, s.doc);
    var after := EventOnLine(line, s, e);
  }

  lemma StacksLike(deck: seq<Slide>, b: Past, stack: seq<seq<Op>>, like: seq<seq<Op>>)
    requires Stacked(deck, b, stack) && LikeSteps(stack, like) && Ready(deck)
    ensures Stacked(deck, b, like)
  {
    hide Stacked, LikeSteps, Ready;
    BetterSelf(b);
    StackedErased(deck, deck, b, b, stack, like);
  }

  lemma BetterSelf(b: Past)
    ensures Better(b, b)
  {
  }

  lemma LikeSelf(stack: seq<seq<Op>>)
    ensures LikeSteps(stack, stack)
  {
  }

  lemma LikeMore(stack: seq<seq<Op>>, x: seq<Op>, y: seq<Op>)
    requires EraseOps(x) == EraseOps(y)
    ensures LikeSteps(stack + [x], stack + [y])
  {
  }

  lemma JoinsLike(h: Steps, x: seq<Op>, y: seq<Op>)
    requires EraseOps(x) == EraseOps(y) && x != []
    ensures Joins(h, x) <==> Joins(h, y)
    ensures LikeSteps(Record(h, x).undo, Record(h, y).undo) && Record(h, x).redo == Record(h, y).redo == [] && y != []
  {
    ErasedTail(x, y);
    LikeOp(x[0], y[0]);
    LikeMore(h.undo, x, y);
    LikeSelf(h.undo);
  }

  /** Where the editor's events come to the same on both decks, the replica
      still trails. */
  lemma Trailing(p: Peer, q: Peer, b: Past, t: Session)
    requires Followed(Peer(t, q.rep), b) && t.doc.slides == q.rep.deck && t.doc.masters == q.session.doc.masters
    requires LikeSteps(t.steps.undo, q.session.steps.undo) && LikeSteps(t.steps.redo, q.session.steps.redo)
    requires HasLine(q.session) && Alike(q.rep.deck, q.session.doc.slides)
    ensures Trails(q, b)
  {
    hide Rel, Settled, Stacked, LikeSteps, HasLine, Ids, MaxId, Erase, Ready, Valid;
    RepReady(Peer(t, q.rep), b);
    StacksLike(q.rep.deck, b, t.steps.undo, q.session.steps.undo);
    StacksLike(q.rep.deck, b, t.steps.redo, q.session.steps.redo);
    ShadowLine(q.session, q.rep.deck);
  }

  lemma EditTrails(p: Peer, a: Past, ops: seq<Op>, typed: bool) returns (b: Past)
    requires Trails(p, a) && FairEdit(p.session, p.rep.deck, EditEvent(ops, typed))
    requires var o := ApplyAll(p.session.doc, ops); o.reply.Ok? && o.reply.value != []
    ensures Trails(Mirrored(p, EditEvent(ops, typed)), b)
    ensures Mirrored(p, EditEvent(ops, typed)).rep.deck == Told(p.rep.deck, p.session.doc.masters, ops)
  {
    hide Rel, Settled, Stacked, LikeSteps, HasLine, Alike, MaxId, Erase, Ready, Valid, UndoableAll, NewAll, MintsAlike, RecordGroup, EraseOps, Joins, Record;
    var e := EditEvent(ops, typed);
    ShadowFacts(p, a);
    var u := Shadow(p);
    GroupAlike(u.session.doc, p.session.doc, ops);
    UndoableAlike(u.session.doc, p.session.doc, ops);
    NewAllAlike(p.rep.deck, p.session.doc.slides, ops);
    var x, y := ApplyAll(u.session.doc, ops).reply, ApplyAll(p.session.doc, ops).reply;
    ReplyLike(x, y);
    b := EventFollowed(u, a, e);
    LineAfter(p.session, e);
    JoinsLike(p.session.steps.(merge := typed), x.value, y.value);
    LikeSelf([]);
    Trailing(p, Mirrored(p, e), b, Mirrored(u, e).session);
  }

  lemma QuietTrails(p: Peer, a: Past, ops: seq<Op>, typed: bool)
    requires Trails(p, a) && UndoableAll(p.session.doc, ops)
    requires var o := ApplyAll(p.session.doc, ops); o.reply.Err? || o.reply.value == []
    ensures Trails(Mirrored(p, EditEvent(ops, typed)), a)
  {
    hide Rel, Settled, Stacked, LikeSteps, HasLine, MaxId, Ready, Valid, UndoableAll, RecordGroup, Ids, Erase;
    var e := EditEvent(ops, typed);
    ShadowFacts(p, a);
    LineAfter(p.session, e);
    NothingDone(p.session.doc, ops);
    GroupIdsGrow(p.session.doc, ops);
    var q := Mirrored(p, e);
    ShadowLine(q.session, q.rep.deck);
  }

  lemma StepAlike(p: Peer, a: Past, ops: seq<Op>, from: Doc, to: Doc)
    requires Trails(p, a) && Link(from, ops, to) && Same(p.session.doc, from)
    ensures var x, y := ApplyAll(Shadow(p).session.doc, ops), ApplyAll(p.session.doc, ops);
            && x.reply.Ok? && y.reply.Ok? && EraseOps(x.reply.value) == EraseOps(y.reply.value)
            && DocAlike(x.doc, y.doc)
  {
    hide Rel, Settled, Stacked, HasLine, Alike, MaxId, Valid, Ready, EraseOps, MintsAlike, Clean;
    ShadowFacts(p, a);
    LinkMoves(from, ops, to, p.session.doc);
    CleanApplies(from, ops);
    CarryingMints(p.rep.deck, p.session.doc.slides, ops);
    GroupAlike(Shadow(p).session.doc, p.session.doc, ops);
  }

  lemma UndoTrails(p: Peer, a: Past) returns (b: Past)
    requires Trails(p, a)
    ensures Trails(Mirrored(p, UndoEvent), b) && Mirrored(p, UndoEvent).rep.deck == DeckAfter(p.session, p.rep.deck, UndoEvent)
  {
    hide Rel, Settled, Stacked, LikeSteps, Alike, MaxId, Erase, Ready, Valid, RecordGroup, EraseOps, Link, ApplyAll, NewAll, UndoableAll;
    var s := p.session;
    var line :| OnLine(line, s.steps, s.doc);
    var u := Shadow(p);
    ShadowFacts(p, a);
    b := EventFollowed(u, a, UndoEvent);
    LineAfter(s, UndoEvent);
    LikeSelf(s.steps.undo);
    LikeSelf(s.steps.redo);
    if s.steps.undo != [] {
      var c := |s.steps.undo|;
      StepAlike(p, a, s.steps.undo[c - 1], line[c], line[c - 1]);
      var x, y := ApplyAll(u.session.doc, Last(s.steps.undo)), ApplyAll(s.doc, Last(s.steps.undo));
      LikeSelf(Init(s.steps.undo));
      LikeMore(s.steps.redo, x.reply.value, y.reply.value);
    }
    Trailing(p, Mirrored(p, UndoEvent), b, Mirrored(u, UndoEvent).session);
  }

  lemma RedoTrails(p: Peer, a: Past) returns (b: Past)
    requires Trails(p, a)
    ensures Trails(Mirrored(p, RedoEvent), b) && Mirrored(p, RedoEvent).rep.deck == DeckAfter(p.session, p.rep.deck, RedoEvent)
  {
    hide Rel, Settled, Stacked, LikeSteps, Alike, MaxId, Erase, Ready, Valid, RecordGroup, EraseOps, Link, ApplyAll, NewAll, UndoableAll;
    var s := p.session;
    var line :| OnLine(line, s.steps, s.doc);
    var u := Shadow(p);
    ShadowFacts(p, a);
    b := EventFollowed(u, a, RedoEvent);
    LineAfter(s, RedoEvent);
    LikeSelf(s.steps.undo);
    LikeSelf(s.steps.redo);
    if s.steps.redo != [] {
      var c, k := |s.steps.undo|, |s.steps.redo| - 1;
      StepAlike(p, a, s.steps.redo[k], line[c], line[c + 1]);
      var x, y := ApplyAll(u.session.doc, Last(s.steps.redo)), ApplyAll(s.doc, Last(s.steps.redo));
      LikeSelf(Init(s.steps.redo));
      LikeMore(s.steps.undo, x.reply.value, y.reply.value);
    }
    Trailing(p, Mirrored(p, RedoEvent), b, Mirrored(u, RedoEvent).session);
  }

  /** Every event leaves the replica trailing. */
  lemma EventTrails(p: Peer, a: Past, e: Event) returns (b: Past)
    requires Trails(p, a) && FairEdit(p.session, p.rep.deck, e)
    ensures Trails(Mirrored(p, e), b) && Mirrored(p, e).rep.deck == DeckAfter(p.session, p.rep.deck, e)
  {
    hide Trails, RecordGroup, Do, ApplyAll, Told, UndoableAll, NewAll, MintsAlike;
    match e
    case EditEvent(ops, typed) =>
      var o := ApplyAll(p.session.doc, ops);
      if o.reply.Ok? && o.reply.value != [] {
        b := EditTrails(p, a, ops, typed);
      } else {
        b := a;
        QuietTrails(p, a, ops, typed);
      }
    case UndoEvent => b := UndoTrails(p, a);
    case RedoEvent => b := RedoTrails(p, a);
  }

  lemma SameDeckErased(a: seq<Slide>, b: seq<Slide>, c: seq<Slide>)
    requires SameDeck(a, b) && Erase(b) == Erase(c)
    ensures SameDeck(a, c)
  {
    SameErased(b, c);
    forall i | 0 <= i < |a|
      ensures SameSlide(a[i], c[i])
    {
      assert SameSlide(a[i], b[i]) && EraseSlide(b[i]) == EraseSlide(c[i]);
    }
  }

  lemma TrailsShows(p: Peer, a: Past)
    requires Trails(p, a)
    ensures Erase(p.rep.deck) == Erase(p.session.doc.slides) && SameDeck(Rebuilt(p.rep.doc), p.session.doc.slides)
  {
    hide Rel, Stacked, HasLine, SameDeck, Rebuilt, Ids, MaxId, Erase, Settled;
    RebuiltShows(p.rep, a);
    SameDeckErased(Rebuilt(p.rep.doc), p.rep.deck, p.session.doc.slides);
  }

  /** After any run of edits, undos and redos, failed groups among them, each
      applied one recorded: replica and editor hold one deck up to tombstones,
      and the document read back shows exactly that. */
  lemma {:induction false} RunShows(p: Peer, a: Past, events: seq<Event>)
    requires Trails(p, a) && FairRun(p.session, p.rep.deck, events)
    ensures var q := MirroredRun(p, events);
            Erase(q.rep.deck) == Erase(q.session.doc.slides) && SameDeck(Rebuilt(q.rep.doc), q.session.doc.slides)
    decreases |events|
  {
    hide Trails, SameDeck, Rebuilt, Mirrored, FairEdit, DeckAfter, Erase;
    if events == [] {
      TrailsShows(p, a);
    } else {
      var b := EventTrails(p, a, events[0]);
      MirroredDoes(p, events[0]);
      RunShows(Mirrored(p, events[0]), b, events[1..]);
    }
  }

  lemma FollowedTrails(p: Peer, a: Past)
    requires Followed(p, a)
    ensures Trails(p, a)
  {
    hide Rel, Stacked, HasLine, Ids, MaxId, Erase, Settled;
    assert Shadow(p).session == p.session by {
      assert Doc(p.rep.deck, p.session.doc.masters) == p.session.doc;
    }
  }

  // ---------------------------------------------------------------- what minting after it leads to

  /** A new slide without ids or builds, put in at `at`. */
  predicate BlankPage(page: Slide) {
    page.ids == SlideIds(0, [], []) && page.props.builds == []
  }

  lemma BlankIsNew(deck: seq<Slide>, at: nat, page: Slide)
    requires at <= |deck| && BlankPage(page)
    ensures New(deck, InsertSlide(at, page)) && NewAll(deck, [InsertSlide(at, page)])
  {
    var op := InsertSlide(at, page);
    assert [op][1..] == [];
    assert NewAll(Apply(deck, op).slides, []);
  }

  lemma PutInOne(doc: Doc, at: nat, page: Slide)
    requires Ready(doc.slides) && at <= |doc.slides| && BlankPage(page)
    ensures var s := Inserted(doc.slides, at, page);
            ApplyAll(doc, [InsertSlide(at, page)]) ==
            DocOutcome(doc.(slides := Insert(doc.slides, at, s)), Ok([DeleteSlide(s.ids.slide)]))
  {
    hide Ops.Apply, Inserted, Insert, Ready;
    InsertSlideIs(doc.slides, at, page);
    One(doc, InsertSlide(at, page));
  }

  /** A new group recorded on the replica's own deck. */
  lemma NewRecorded(rep: Rep, a: Past, masters: seq<Master>, ops: seq<Op>) returns (b: Past)
    requires Rel(rep, a) && Settled(rep.deck, a) && NewAll(rep.deck, ops) && ApplyAll(Doc(rep.deck, masters), ops).reply.Ok?
    ensures var q := RecordGroup(rep, ops).0;
            Rel(q, b) && Settled(q.deck, b) && q.deck == ApplyAll(Doc(rep.deck, masters), ops).doc.slides
  {
    hide Rel, Settled, NewAll, RecordGroup, NewOrBack, StepAll;
    var doc := Doc(rep.deck, masters);
    NewEither(rep.deck, a, ops);
    GroupRecorded(rep, a, doc, ops);
    SettledNewAll(rep, a, doc, ops);
    b := StepAll(rep.deck, a, ops);
  }

  lemma GoneSlide(doc: Doc, x: nat)
    requires Ready(doc.slides) && SlidePos(doc.slides, x).None?
    ensures ApplyAll(doc, [DeleteSlide(x)]) == DocOutcome(doc, Ok([])) && NewAll(doc.slides, [DeleteSlide(x)])
  {
    ReadyStays(doc.slides);
    One(doc, DeleteSlide(x));
    assert [DeleteSlide(x)][1..] == [];
    assert NewAll(Apply(doc.slides, DeleteSlide(x)).slides, []);
  }

  lemma NoSuchSlide(deck: seq<Slide>, at: nat, s: Slide, x: nat)
    requires at <= |deck| && x > MaxId(deck) && s.ids.slide != x
    ensures SlidePos(Insert(deck, at, s), x).None?
  {
    hide MaxId;
    var after := Insert(deck, at, s);
    AboveIsNew(deck, x);
    forall j | 0 <= j < |after|
      ensures after[j].ids.slide != x
    {
      if j != at {
        var k := if j < at then j else j - 1;
        assert after[j] == deck[k] && SlideIdsOf(deck)[k] in SlideIdsOf(deck);
      }
    }
  }

  lemma TakenOutOne(doc: Doc, at: nat)
    requires Valid(doc.slides) && at < |doc.slides| && |doc.slides| > 1
    ensures var o := ApplyAll(doc, [DeleteSlide(doc.slides[at].ids.slide)]);
            o.reply.Ok? && o.reply.value != [] && |o.doc.slides| == |doc.slides| - 1
  {
    hide NoDup;
    ReadyStays(doc.slides);
    PosIs(doc.slides, at);
    One(doc, DeleteSlide(doc.slides[at].ids.slide));
  }

  /** Where a failed group has raised the editor's next id, a slide put in gets
      other ids there than in the replica; and when the editor deletes it the
      replica's document still shows it. */
  lemma MintParts(p: Peer, a: Past, at: nat, page: Slide)
    requires Trails(p, a) && MaxId(p.rep.deck) != MaxId(p.session.doc.slides)
    requires at <= |p.rep.deck| && BlankPage(page)
    ensures var q := Mirrored(p, EditEvent([InsertSlide(at, page)], false));
            var gone := Mirrored(q, EditEvent([DeleteSlide(NextId(p.session.doc.slides))], false));
            && Erase(q.rep.deck) != Erase(q.session.doc.slides)
            && !SameDeck(Rebuilt(gone.rep.doc), gone.session.doc.slides)
  {
    hide Rel, Stacked, HasLine, Ids, Erase, Ready, Valid, Rebuilt, RecordGroup, Inserted, NewAll, Ops.Apply, MaxId, Settled, ApplyAll;
    ShadowFacts(p, a);
    var r, d := p.rep.deck, p.session.doc.slides;
    var doc, masters := p.session.doc, p.session.doc.masters;
    SameErased(r, d);
    MaxIdGrows(r, d);
    var ops := [InsertSlide(at, page)];
    var q := Mirrored(p, EditEvent(ops, false));
    PutInOne(doc, at, page);
    PutInOne(Doc(r, masters), at, page);
    BlankIsNew(r, at, page);
    MintedNext(r, at, page);
    MintedNext(d, at, page);
    var b := NewRecorded(p.rep, a, masters, ops);
    PutAt(r, at, Inserted(r, at, page));
    PutAt(d, at, Inserted(d, at, page));
    ErasedAt(q.rep.deck, q.session.doc.slides, at);
    var x := NextId(d);
    NoSuchSlide(r, at, Inserted(r, at, page), x);
    DeckValid(q.rep, b);
    GoneSlide(Doc(q.rep.deck, masters), x);
    var c := NewRecorded(q.rep, b, masters, [DeleteSlide(x)]);
    InsertedValid(d, at, page);
    TakenOutOne(q.session.doc, at);
    var gone := Mirrored(q, EditEvent([DeleteSlide(x)], false));
    RebuiltShows(gone.rep, c);
  }

  lemma InsertedValid(deck: seq<Slide>, at: nat, page: Slide)
    requires Valid(deck) && at <= |deck| && BlankPage(page)
    ensures Valid(Insert(deck, at, Inserted(deck, at, page)))
  {
    hide Inserted;
    InsertedIsApart(deck, at, page);
    ValidInserted(deck, at, Inserted(deck, at, page));
  }

  /** The group of the failure: an object put in, then the only slide deleted. */
  function Refused(deck: seq<Slide>, o: SlideObject): seq<Op>
    requires deck != []
  {
    [InsertObject(deck[0].ids.slide, 0, NextId(deck), o), DeleteSlide(deck[0].ids.slide)]
  }

  lemma RefusedFair(s: Session, o: SlideObject)
    requires Valid(s.doc.slides) && !NamesObject(s.doc.slides[0].props.builds, NextId(s.doc.slides))
    ensures UndoableAll(s.doc, Refused(s.doc.slides, o))
  {
    hide ApplyAll, Edit, MaxId;
    var deck := s.doc.slides;
    var ops := Refused(deck, o);
    PosIs(deck, 0);
    assert ops[1..] == [DeleteSlide(deck[0].ids.slide)] && ops[1..][1..] == [];
    assert UndoableAll(ApplyDoc(s.doc, ops[0]).doc, ops[1..]);
  }

  lemma NoneNamed(p: Peer, a: Past, x: nat)
    requires Trails(p, a) && x !in Ids(p.session.doc.slides)
    ensures p.session.doc.slides != [] && !NamesObject(p.session.doc.slides[0].props.builds, x)
  {
    hide WellFormed, RootRel, PastRel, NodesOk, KidsRel, RegsRel, Stacked, HasLine, MaxId, StoredIn, ReadBuilds;
    var r, d := p.rep.deck, p.session.doc.slides;
    ShadowFacts(p, a);
    assert r[0] in r && SlideRel(p.rep.doc, p.rep.nodes, r[0], a.stale);
    ErasedAt(r, d, 0);
    assert EraseSlide(r[0]) == Erase(r)[0] == Erase(d)[0] == EraseSlide(d[0]);
    IdsOfOne(d, 0);
  }

  /** How editor and replica come to differ: a group that puts in an object and
      deletes the only slide fails, and leaves an id only the editor has had. */
  lemma FailureSetsApart(p: Peer, a: Past, o: SlideObject) returns (q: Peer)
    requires Trails(p, a) && MaxId(p.rep.deck) == MaxId(p.session.doc.slides) && |p.session.doc.slides| == 1
    ensures FairEdit(p.session, p.rep.deck, EditEvent(Refused(p.session.doc.slides, o), false))
    ensures q == Mirrored(p, EditEvent(Refused(p.session.doc.slides, o), false))
    ensures Trails(q, a) && MaxId(q.rep.deck) != MaxId(q.session.doc.slides)
  {
    hide Followed, HasLine, Alike, Valid, ApplyAll, UndoableAll;
    ShadowFacts(p, a);
    var doc := p.session.doc;
    var ops := Refused(doc.slides, o);
    assert NextId(doc.slides) !in Ids(doc.slides) by {
      MaxIdBounds(doc.slides);
    }
    NoneNamed(p, a, NextId(doc.slides));
    RefusedFair(p.session, o);
    RolledBackGroupMints(doc, o);
    q := Mirrored(p, EditEvent(ops, false));
    QuietTrails(p, a, ops, false);
  }

  /** From any deck of one slide in step with its document, three edits set
      them apart: such a group, a slide put in, and that slide deleted. The
      document then shows a slide the editor has not. */
  lemma FailureThenMintParts(p: Peer, a: Past, o: SlideObject, at: nat, page: Slide)
    requires Trails(p, a) && MaxId(p.rep.deck) == MaxId(p.session.doc.slides) && |p.session.doc.slides| == 1
    requires at <= 1 && BlankPage(page)
    ensures var failed := EditEvent(Refused(p.session.doc.slides, o), false);
            var q := Mirrored(p, failed);
            var put := EditEvent([InsertSlide(at, page)], false);
            var taken := EditEvent([DeleteSlide(NextId(q.session.doc.slides))], false);
            var end := MirroredRun(p, [failed, put, taken]);
            !SameDeck(Rebuilt(end.rep.doc), end.session.doc.slides)
  {
    hide Trails, Mirrored, SameDeck, Rebuilt, MaxId, NextId, BlankPage;
    var q := FailureSetsApart(p, a, o);
    LengthsTrail(p, a, o, q);
    MintParts(q, a, at, page);
    var failed, put := EditEvent(Refused(p.session.doc.slides, o), false), EditEvent([InsertSlide(at, page)], false);
    var taken := EditEvent([DeleteSlide(NextId(q.session.doc.slides))], false);
    ThreeEvents(p, failed, put, taken);
  }

  lemma LengthsTrail(p: Peer, a: Past, o: SlideObject, q: Peer)
    requires Trails(p, a) && |p.session.doc.slides| == 1
    requires q == Mirrored(p, EditEvent(Refused(p.session.doc.slides, o), false))
    ensures |q.rep.deck| == 1
  {
    hide Followed, HasLine, Valid, ApplyAll, Ids, MaxId;
    ShadowFacts(p, a);
    RolledBackGroupMints(p.session.doc, o);
    assert |Erase(p.rep.deck)| == |p.rep.deck|;
  }

  lemma ThreeEvents(p: Peer, x: Event, y: Event, z: Event)
    ensures MirroredRun(p, [x, y, z]) == Mirrored(Mirrored(Mirrored(p, x), y), z)
  {
    hide Mirrored;
    assert [x, y, z][1..] == [y, z] && [y, z][1..] == [z] && [z][1..] == [];
    var second := Mirrored(Mirrored(p, x), y);
    assert MirroredRun(second, [z]) == Mirrored(second, z);
    assert MirroredRun(Mirrored(p, x), [y, z]) == MirroredRun(second, [z]);
  }
}
