# The Decks core, modelled and proved

A presentation is a list of slides whose every change is an *op* with an
exact inverse. This project models that core in Dafny and proves what holds
over whole runs of it: the op algebra and its history, the controller around
them, the replica that mirrors the ops in a shared tree document, the ODF
printers with the readers that take their output back, and the layout,
animation and markup-scanning algorithms beside them.

`dafny verify dfyconfig.toml` checks everything.

## How it is laid out

| files | what they hold |
|---|---|
| Engine, Sequences | slides, objects, builds, masters; list insert, remove, move |
| Ops, Numbering, OpLaws, GroupLaws, Inverses, GroupUndo, Identity | what an op, an inverse and a group do, as functions, and their laws |
| Timeline, Editor | undo and redo over whole runs; the document and the history as classes edited in place |
| Selection, Control, ControlLine, ControlStacks, ControlDrops, ControlView, ControlSaves, ControlSessions, ControlDocs, Controller | the controller as a state machine, its invariants, what each call makes of the document, and the class whose fields follow it call by call |
| Tree, TreeLaws, Replica, RegisterLaws | a movable ordered tree with last-writer-wins registers, and how ops are written to it |
| ReplicaRel, ReplicaOps, ReplicaEdits, ReplicaSlides, ReplicaInsert, ReplicaSteps, ReplicaLine, ReplicaRuns, ReplicaShows, ReplicaDrift, ReplicaStart, ReplicaAside, ReplicaRebuild, ReplicaFounded | the refinement: live nodes show the deck, dead ones hold what undo may bring back; failed groups; documents read after a merge |
| Merging, ObjectMerge, SharedDeck | merges, why a delete wins, and what two edits of one object come to; the replica as a class |
| OdpText, OdpNesting, OdpRuns, OdpBuilds, ShapeIds, StyleNames | printers and their readers |
| Layouts, LayoutOps, BuildFrames, SlideEdges, MagicMove, Markup, MarkupLaws, Relationships | the algorithms beside them |
| Shortfalls | inputs on which the code falls short of what it says |

Code that changes things step by step is a class or a method with a loop,
proved equal to a function of the old state; the laws are lemmas about that
function. `Make`, `Write`, `Apply`, `Rebuilt` and their like are those
functions.

## Main results

- **Inverses.** An applied op's inverse restores the document up to tombstone
  lists exactly when no build names an object the op inserts; groups, failed
  groups and any run of edits, undos and redos follow. Tombstones never decide
  what an op does, unless it mints an id; ids are never reused.
- **Controller.** Every interleaving of calls keeps the document on its
  history's line of documents, in the deck and in the master view. The
  selection stacks stay as long as the history's, after a call and the key that
  may follow it, exactly when the call is disciplined; the undo that comes back to
  a call restores its document and its selection together. Where the deck is
  changed from outside, a step that no longer fits goes with its own selection,
  and every other step keeps its own. Cancel restores everything; a clean deck is
  what the last acknowledged save wrote, and Cancel keeps that under exactly a
  stated condition. All of it holds from a new session on.
- **Replica.** After any recorded run the document, read back, shows exactly the
  deck, dead nodes lying among live ones; failed groups leave tombstones only, as
  long as no slide is minted where they make the next id another, which is exact. The same holds from any
  document with a slide, dead or alive, that a merge has left: slides all deleted
  at once come back with the first recorded edit, and objects that cannot be read
  are passed over. A delete wins over moves and edits in any merge order; two
  edits of one object are joined field by field, and make an object exactly when
  the winning kind's fields survive.
- **ODF.** Nested lists are well formed and read back, two paragraphs in one list or
  item of a level exactly when what lies between them is deep enough; runs, builds, shape ids
  and style names come back, each with the exact condition.
- **Algorithms.** A layout gives every place one box, each box in turn the free place
  that suits it best, is idempotent, and is
  reached exactly by its ops; a build's end is the next one's rest exactly when
  nothing of it remains in view, turned as it may be; object matching is nearest and maximal; the markup scan returns
  exactly the document's start tags.

## Where the code and its promises part

The model follows the code. Each of these is a lemma.

- A build left over from an object that is gone is lost when an object is
  inserted under its id and the insert undone (`Shortfalls.DanglingBuildIsLost`,
  `Inverses.InverseRestores`).
- "The deck is unchanged" when an op is refused holds of numbered decks only:
  `apply` numbers first (`GroupUndo.FailedOpNumbers`).
- A group rolled back leaves tombstones, so the editor's next minted ids and
  those of a replica that never heard of the group differ
  (`Shortfalls.RolledBackGroupMints`, `Shortfalls.MintsApart`). A slide put in then
  has other ids in each, and the document goes on showing it when the editor
  deletes it (`ReplicaDrift.MintExact`, `ReplicaDrift.FailureThenMintParts`).
- Two peers that give one object different kinds at once can lose it in the merge,
  though neither deleted it: exactly where one removes a field that the kind of
  the other needs (`ObjectMerges.EditsMerge`, `ObjectMerges.KindsClash`).
- The selection stacks lose step with the history in three ways while a word is
  being typed in the notes: a key on another slide, a redo with nothing to redo,
  and notes set to what they are (`ControlStacks.DisciplineIsExact`).
- A save staged or acknowledged in the master view and followed by Cancel leaves a
  deck marked clean that is not what was saved (`ControlSaves.CancelExact`,
  `ControlSessions.SessionLosesSave`).
- `add_slide` with a copy keeps builds that name the original's objects
  (`Shortfalls.CopiedBuildsDangle`); the ODF writer gives such builds to the first
  object (`OdpBuilds.BuildTargets`).
- Reading paragraphs back drops the breaks a text begins with from the runs, not
  from the text (`OdpRuns.StrippedSame`).
- List paragraphs take their level's marker, as the reader names it, and, where
  their own is zero, its indents; levels past the ninth come back at the ninth
  (`OdpText.CarriedWhole`, `OdpText.TooDeep`).
- Twenty numbering schemes come back, others as one of them
  (`OdpText.SchemeComesBack`). The empty style name comes back as `Default`
  (`StyleNames.NameComesBack`).
- An object that builds in after having built out shows at the end of that build and
  is gone at rest (`BuildFrames.PlayedIsRest`).
- A turned object moved out of the slide is moved by its box as if it were not
  turned, so that its corners may still lie on the slide when its build is done
  (`SlideEdges.OffstageExact`, `SlideEdges.TurnedStays`).
- A comment whose text begins with `>` or `->` is taken to end there, and what it
  comments out is scanned (`MarkupLaws.MisreadComment`, `MarkupLaws.CommentExact`).
- A base folder with a dot segment keeps it, unless the target leads back out of it
  (`Relationships.DotsThatStay`).

## Model

| member | source | states |
|---|---|---|
| Numbering.EnsureIdsKeepsAndMintsAbove | decks-core/src/ops.rs:183-198 | object by object: each keeps the id it had, whether or not the slide has one for every object; one past those, and a slide without, gets an id above every id of the deck, tombstones included; nothing but ids changes |
| Numbering.EnsureIdsIdempotent | decks-core/src/ops.rs:183-198 | numbering twice is numbering once |
| Editor.DeckDoc.EnsureIds | decks-core/src/ops.rs:185-198 | the loop with its running counter leaves the slides as the specification `EnsureIds` says, masters untouched |
| GroupLaws.InsertedIsApart | decks-core/src/ops.rs:283-299 | a slide put in gets ids apart from all others, each one it lacked above all ids of the deck |
| GroupLaws.ValidAfter | decks-core/src/ops.rs:278-385 | every op, applied or refused, keeps the deck non-empty, numbered, and without a duplicate slide id or object id of a slide |
| Identity.IdsGrow | decks-core/src/ops.rs:283-361 | an op never loses an id, live or tombstoned; what it adds it brought or minted above every id there was |
| Identity.RunIdsGrow | decks-core/src/ops.rs:255-258 | over any run of edits, undos and redos the set of live and tombstoned ids only grows, whatever fails on the way |
| Identity.NeverReused | decks-core/src/ops.rs:283-299 | after any run a slide put in without ids gets ids nothing ever had |
| Identity.NextIdNeverReused | decks-core/src/ops.rs:256-258 | nor does the id the editor takes for a new object after any run repeat one |
| Editor.DeckDoc.ApplyToSlides | decks-core/src/ops.rs:278-385 | the in-place edit of slides, object lists and tombstone lists computes exactly `Ops.Apply`: new slides, error or inverse |
| Editor.DeckDoc.ApplyOne | decks-core/src/ops.rs:137-148 | a master op replaces one master under its own id and returns the old one, or fails; the rest goes to the slides |
| Editor.DeckDoc.ApplyGroup | suite-common-core/src/ops.rs:48-62 | all ops or none: on the first failure the inverses so far are applied, last first; the reply is the inverses in undo order |
| Inverses.InverseRestores | decks-core/src/ops.rs:278-385 | the inverse of any applied op applies, does something if the op did, and restores slides, objects, ids, builds, properties and masters up to tombstone lists if and only if no build of the slide names an object the op inserts |
| OpLaws.ApplyIgnoresTombstones | decks-core/src/ops.rs:305-312 | for an op that mints no id, decks equal up to tombstones give equal decks, the same error, and inverses equal up to tombstones |
| GroupUndo.GroupIgnoresTombstones | suite-common-core/src/ops.rs:48-62 | the same for whole groups |
| GroupUndo.InverseIsClean | decks-core/src/ops.rs:278-385 | what an inverse needs to be stored: it brings its own ids, applies, and can itself be undone |
| GroupUndo.GroupRestores | suite-common-core/src/ops.rs:43-62 | a group and then its inverse group restore the document up to tombstones; the inverse does something if the group did |
| GroupUndo.FailedGroupRestores | suite-common-core/src/ops.rs:43-62 | a group that fails leaves the document as it was, up to tombstones |
| GroupUndo.FailedOpNumbers | decks-core/src/ops.rs:150-159 | a refused op changes nothing exactly when the deck was numbered already (the doc comment promises it always) |
| Shortfalls.DanglingBuildIsLost | decks-core/src/ops.rs:326-337 | the input on which the inverse does not restore: inserting an object a leftover build names |
| Shortfalls.RolledBackGroupMints | suite-common-core/src/ops.rs:48-62 | a group rolled back leaves a tombstone, so the next id minted is another |
| Shortfalls.MintsApart | decks-core/src/ops.rs:283-299 | decks that have seen different ids mint different ids for the same new slide |
| Merging.GoneOp | decks-core/src/ops.rs:315-383 | an op on a slide or object that is not there does nothing, has an empty inverse, and is not written to the document |
| Editor.History.Record | suite-common-core/src/ops.rs:99-131 | a recorded step drops what could be redone, and joins the step before only inside a typed word |
| Editor.History.Undo | suite-common-core/src/ops.rs:145-169 | moves the last step, as its inverse, to the other stack; a step that no longer applies is dropped |
| Editor.History.Redo | suite-common-core/src/ops.rs:151-169 | the same the other way; either ends the word |
| Timeline.RunOnLine | suite-common-core/src/ops.rs:99-169 | for any run of edits, undos and redos there is one line of documents along which stored steps lead: they never fail and are never empty |
| Timeline.UndosThenRedos | suite-common-core/src/ops.rs:145-169 | after any run, n undos and n redos give every slide, object, id, build and master back |
| Timeline.EditOnLine | suite-common-core/src/ops.rs:99-131 | a recorded edit keeps the past of the line; what lay ahead is gone |
| Timeline.TypedWordUndoes | decks-core/src/ops.rs:420-425 | a word typed key by key is one step, whose undo gives the document before its first key |
| Controller.DecksController.constructor | decks-core/src/controller.rs:252-275 | a new session on the slides as numbered: first slide current and selected, nothing to undo, nothing to save |
| Controller.DecksController.ApplyOps | decks-core/src/controller.rs:856-892 | one undo step with the selection it saw, the redo stacks cleared, a new revision; or nothing |
| Controller.DecksController.SetNotes | decks-core/src/controller.rs:1343-1362 | the op written and the merge mark: a typed word character joins the word before, anything else is its own step |
| ControlDocs.NotesSet | decks-core/src/controller.rs:1343-1362 | the document after: that slide's notes are the text given and nothing else in the deck differs; a change exactly when they were something else; no such slide, nothing |
| ControlDocs.OneWordCharExactly | decks-core/src/controller.rs:1646-1654 | a key counts as typing a word if and only if the new notes are the old with one word character put in somewhere |
| Controller.DecksController.Undo | decks-core/src/controller.rs:1568-1599 | refused in a text session; restores the selection recorded for the step; a failed step is dropped with its selection |
| Controller.DecksController.Redo | decks-core/src/controller.rs:1605-1635 | the same for redo, keeping the selection |
| Controller.DecksController.SelectObjects | decks-core/src/controller.rs:629-640 | the selection is replaced, or nothing is, for a slide that is not there |
| ControlDocs.ObjectsSelected | decks-core/src/controller.rs:629-640 | the selection after: of the objects asked for all the slide has, as often and in the same order; the primary asked for if it is among them, or the first |
| ControlDocs.TextRangeSet | decks-core/src/controller.rs:648-670 | a text range is taken if and only if it fits the current slide; that box alone is then selected |
| Controller.DecksController.EditMaster | decks-core/src/controller.rs:506-526 | puts slides, steps and selections aside and opens the stand-in slide |
| Controller.DecksController.FinishMaster | decks-core/src/controller.rs:536-555 | puts them back and records a changed master as one step |
| ControlDocs.MasterOpened | decks-core/src/controller.rs:494-526 | the view opens, unless it or a text is open, on the master the slide names, or the first if it names none; the stand-in shows that master's background and shapes, each under an id |
| ControlDocs.DoneTakesOver | decks-core/src/controller.rs:536-555 | after Done the master has the stand-in's background and shapes, and its own id, name, font and layouts; every other master and the slides put aside are as they were; the slide the view was opened from is current |
| ControlDocs.SavedInView | decks-core/src/controller.rs:575-590 | so has the deck a save writes in the master view |
| ControlDocs.MasterReplaced | decks-core/src/ops.rs:137-148 | `SetMaster` puts all of the new master, its layouts too, in the place of the one found by id, and touches nothing else |
| ControlDocs.SlideDeleted | decks-core/src/ops.rs:299-313 | a deleted slide's ids, live and tombstoned, go to the tombstones of the slide now in its place, or of the last; nothing else of the others changes |
| Controller.DecksController.CancelMaster | decks-core/src/controller.rs:561-571 | puts them back and keeps nothing |
| Controller.DecksController.AcknowledgeSave | decks-core/src/controller.rs:309-316 | clean only if the revision is still the checkpoint |
| ControlLine.CallsStanding | decks-core/src/controller.rs:856-892 | for every interleaving of controller calls the document, and the deck aside in the master view, stays on its line of documents |
| ControlLine.StepsNeverFail | decks-core/src/controller.rs:1568-1635 | so undo (redo) does something exactly when there is a step |
| ControlStacks.CallInStep | decks-core/src/controller.rs:1343-1362 | on any valid deck, whether or not the stored steps still fit it, a call keeps the invariant (both selection stacks as long as the history, both flags agreeing on an open word) if and only if it is disciplined: no key on other notes, no unchanged notes and no redo with nothing to redo while a word is open |
| ControlStacks.DisciplineIsExact | decks-core/src/controller.rs:1343-1362 | in the stack lengths alone: they match the history's after a call, and after whatever disciplined key follows it, if and only if the call is disciplined |
| ControlStacks.UndisciplinedLoses | decks-core/src/controller.rs:1343-1362 | after an undisciplined call they differ, at once or after the next key of the word, which is itself disciplined |
| ControlStacks.CallsInStep | decks-core/src/controller.rs:138-148 | from a state in step, every run of disciplined calls stays in step |
| ControlStacks.OtherSlideLosesOne | decks-core/src/ops.rs:423-425 | typing on another slide while a word is open records a step with no selection |
| ControlStacks.EmptyRedoLosesOne | decks-core/src/controller.rs:1605-1635 | a redo with nothing to redo, inside a word, does too |
| ControlStacks.SameNotesLeavesOne | decks-core/src/controller.rs:1343-1362 | setting notes to what they are, inside a word, leaves one selection too many |
| ControlStacks.CallSettles | decks-core/src/controller.rs:672-706 | after every call the owned selection is a fixpoint of its repair |
| ControlStacks.UndoRestoresItsSelection | decks-core/src/controller.rs:1568-1599 | after a recorded call and any disciplined calls above it, the undo that comes back to it gives the document as it was before that very step and the selection that step saw, repaired against the slides then there |
| ControlDrops.UndoTakesOne | decks-core/src/controller.rs:1568-1599 | on any deck, changed from outside or not: undo takes the top step and its selection and nothing below; a step that no longer fits is dropped with its selection alone, and nothing else of the session changes |
| ControlDrops.RedoTakesOne | decks-core/src/controller.rs:1605-1635 | so does redo |
| ControlDrops.MoveNoLongerFits | decks-core/src/controller.rs:1593-1597 | such a step: a move is undone if and only if its slide is gone or its place is still there |
| ControlDrops.TurnsInStep | decks-core/src/controller.rs:138-148 | disciplined calls, and any changes of the deck from outside between them, keep one selection for each step |
| ControlDrops.UndoFindsItsSelection | decks-core/src/controller.rs:1568-1599 | come back to a recorded step after any such calls and changes, however many steps above it applied or were dropped: it is that very step; if it fits the deck now there undo applies it and restores the selection it saw, repaired against the slides then there; if not it goes with that selection and everything below stays |
| ControlDrops.UndosInARow | suite-common-core/src/ops.rs:145-169 | any number of undos in a row, each step applied or dropped: the last, if it applies, restores the selection recorded at its depth |
| ControlSessions.NewSessionHolds | decks-core/src/controller.rs:252-275 | a new session meets every invariant the results on runs start from: its line of documents, the stacks, the selection, the save clock |
| ControlSessions.SessionsStand | decks-core/src/controller.rs:252-275 | so whatever is called from a new session on, the document is on its line, undo and redo do something exactly when there is a step, and the selection is a fixpoint of its repair |
| ControlSessions.SessionsMatch | decks-core/src/controller.rs:138-148 | and as long as the calls are disciplined each stored step has its selection |
| ControlSessions.SessionsSave | decks-core/src/controller.rs:280-316 | with saves staged and acknowledged in between, a deck that is clean after a save is what the acknowledged save wrote |
| ControlSessions.SessionLosesSave | decks-core/src/controller.rs:506-571 | in any new session whose master view opens, five acts come to that: the master opened, its background changed, a save staged and finished, and Cancel |
| Selecting.RepairedIdempotent | decks-core/src/controller.rs:677-696 | repair is idempotent |
| Selecting.RepairedNamesLive | decks-core/src/controller.rs:677-696 | repair falls on the selection's own slide, or on the first if that is gone; keeps of its objects all still there, in order; its primary or the first; its mode while anything is kept; its range exactly while that fits |
| Selecting.RangeFitsExactly | decks-core/src/controller.rs:685-694 | a range fits if and only if its object is a text box of the slide and its ends, in order, lie between characters of the text's UTF-8 bytes |
| ControlView.CancelRestores | decks-core/src/controller.rs:493-571 | for any edits, undos and redos inside the master view, Cancel gives slides, masters, history, both selection stacks and the selection back exactly |
| ControlView.DoneIsOneStep | decks-core/src/controller.rs:536-555 | Done adds one step if the master changed and none if not, on top of what was put aside |
| ControlView.UndoneDoneRestores | decks-core/src/controller.rs:536-555 | undoing that step restores the old master and the deck put aside |
| ControlView.DoneKeepsDeck | decks-core/src/controller.rs:575-590 | the deck a save would write just before Done is the deck just after |
| ControlSaves.CleanDeckIsWhatWasSaved | decks-core/src/controller.rs:280-316 | for any interleaving of calls, staged saves and acknowledgements, a clean deck equals what the acknowledged save wrote |
| ControlSaves.CancelClock | decks-core/src/controller.rs:561-571 | Cancel keeps the clock invariant under exactly that condition |
| ControlSaves.CancelExact | decks-core/src/controller.rs:561-571 | after Cancel a clean deck is the one that was saved, at once and whichever staged save finishes next, if and only if the master was untouched or no save took, or wrote, the deck of this revision |
| ControlSaves.CancelLosesSave | decks-core/src/controller.rs:561-571 | otherwise there is a clean deck that is not what was saved, at once or when the save of this revision finishes |
| ControlSaves.StaleAcknowledgement | decks-core/src/controller.rs:305-316 | from any state: an acknowledgement after any recorded edit, undo or redo since its save was staged never cleans, whatever else is done, Cancel included |
| Shortfalls.CopiedBuildsDangle | decks-core/src/controller.rs:764-778 | a slide put in as a copy keeps its builds, and none that named an object names one of the copy |
| LayoutOps.ArrangedOpsMake | decks-core/src/controller.rs:1466-1486 | applied as a group the ops put the slide exactly on its layout, new boxes under ids above all others, name that layout and master, and change no other property, slide or master |
| LayoutOps.ArrangedAgain | decks-core/src/controller.rs:1466-1486 | a slide already on the layout needs no ops |
| Layouts.Arrange | decks-core/src/layouts.rs:258-325 | the loop over the used array computes `Arranged` |
| Layouts.PlaceForIs | decks-core/src/layouts.rs:258-325 | in fields of box and place: the first free place of its source type and stated index; if none, the first of its source type; if none, the first of its role; else none; nothing else takes one |
| Layouts.EachTakesItsOwn | decks-core/src/layouts.rs:258-325 | so takes each box of the slide in turn, the free places being those no box before it took |
| Layouts.EveryPlaceOneBox | decks-core/src/layouts.rs:258-325 | every place has exactly one box and every box at most one place; a box that is new stands on its place with its role, empty |
| Layouts.KeepsAll | decks-core/src/layouts.rs:258-325 | the slide's objects stay in order with their text; what is no placeholder is untouched |
| Layouts.ArrangedTwice | decks-core/src/layouts.rs:258-325 | arranging twice is arranging once |
| BuildFrames.SetBuildKeeps | decks-core/src/controller.rs:1315-1337 | setting a build keeps each object to one build in and one out and sets its own, at its old click or last; the others stay in their order |
| TreeLaws.Placed | decks-core/src/collab.rs:244-272 | moving a live node between the neighbours of position `at` puts it at `at` among the live children, whatever dead nodes lie between |
| TreeLaws.Created | decks-core/src/collab.rs:244-258 | so does a new node |
| RegisterLaws.ObjectReadsBack | decks-core/src/collab.rs:88-129 | the registers an object is written to give it back, whatever the node held before |
| RegisterLaws.SlideReadsBack | decks-core/src/collab.rs:290-306 | so do a slide's, its builds by their objects' nodes |
| ReplicaInsert.Ordered | decks-core/src/collab.rs:276-288 | `order` puts the live children in the order given |
| ReplicaSteps.OpRecorded | decks-core/src/collab.rs:309-394 | an applied op, new or from the history, keeps document and deck in step: live children in order, registers, builds, and what is dead |
| ReplicaLine.GroupRecorded | decks-core/src/collab.rs:220-236 | so does a group |
| ReplicaLine.OpReturns | decks-core/src/collab.rs:309-394 | the inverse of a recorded op finds in the document what it puts back |
| ReplicaShows.RebuiltShows | decks-core/src/collab.rs:400-458 | the document read back shows exactly the replica's deck, up to local ids |
| ReplicaShows.RebuiltHolds | decks-core/src/collab.rs:400-458 | whatever merges made of it: a rebuild has a slide, and its builds name live objects of their own slide |
| ReplicaStart.DocumentShowsDeck | decks-core/src/collab.rs:160-236 | from a numbered deck, whatever run of edits, undos and redos follows, failed groups among them: replica and editor hold one deck up to tombstones and the document read back shows exactly it, as long as no op mints an id where the replica's deck would mint another |
| ReplicaDrift.RunShows | decks-core/src/collab.rs:211-236 | the same from any state reached so, editor and replica trailing each other by tombstones |
| ReplicaDrift.MintExact | decks-core/src/ops.rs:283-299 | and that condition is exact: put into decks equal up to tombstones, a slide without ids leaves them so if and only if they mint alike |
| ReplicaDrift.MintParts | decks-core/src/collab.rs:211-236 | where a failed group has raised only the editor's next id, a slide put in gets other ids there than in the replica, and once the editor deletes it the document still shows it |
| ReplicaDrift.FailureThenMintParts | decks-core/src/collab.rs:211-236 | three edits that come to that from any deck of one slide in step with its document |
| ReplicaStart.FreshDeckApart | decks-core/src/collab.rs:160-176 | a deck without ids is such a deck |
| ReplicaRebuild.RebuiltRel | decks-core/src/collab.rs:400-458 | a replica that has read any document with a slide is in step with it, once objects that cannot be read count as deleted and the slide shown is live; no id is given to such an object |
| ReplicaRebuild.FirstGroupRevives | decks-core/src/collab.rs:220-236 | where every slide was deleted at once, the first recorded group brings the slide shown back: from then on the live slides of the document are the deck's, in order |
| ReplicaAside.RunAside | decks-core/src/collab.rs:309-394 | what is recorded never depends on the tombstone of a node that no id names, for whole runs |
| ReplicaAside.SweptRebuilt | decks-core/src/collab.rs:400-458 | nor does what is read, if that node makes no object |
| ReplicaRebuild.RebuiltRunShows | decks-core/src/collab.rs:400-458 | from any document with a slide, dead or alive, whatever a merge made of it: for every run recorded after it is read, the document read back shows exactly the deck; slides all deleted and objects whose registers make none included |
| ReplicaFounded.MergedRunShows | decks-core/src/collab.rs:200-236 | so for two peers that record any runs, merge into any tree and read: every run recorded from there is shown |
| ReplicaFounded.RunGrounded | decks-core/src/collab.rs:290-306 | a recorded run never lists a build of a node not in the tree, whatever it undoes, redoes or fails at |
| ReplicaFounded.MergedFounded | decks-core/src/collab.rs:204-209 | nor does a merge of two documents that do not |
| SharedDecks.SharedDeck.constructor | decks-core/src/collab.rs:160-176 | a node for each slide and object, in order, and their registers |
| SharedDecks.SharedDeck.PutInOrder | decks-core/src/collab.rs:276-288 | the loop moving only nodes out of order computes `Order` |
| SharedDecks.SharedDeck.WriteInserted | decks-core/src/collab.rs:309-345 | the node of an inserted slide, new or back from the dead, with its objects |
| SharedDecks.SharedDeck.WriteOp | decks-core/src/collab.rs:309-394 | writing one op computes `Write` |
| SharedDecks.SharedDeck.Record | decks-core/src/collab.rs:220-236 | recording a group computes `RecordOps`, up to the first op that does not apply |
| SharedDecks.SharedDeck.Rebuild | decks-core/src/collab.rs:400-458 | reading slide by slide computes `RebuiltRep` |
| Merging.MergeCommutes | decks-core/src/collab.rs:204-209 | merged registers do not depend on who merges whom |
| Merging.MergeAssociates | decks-core/src/collab.rs:204-209 | nor on the grouping |
| Merging.MergeIdempotent | decks-core/src/collab.rs:204-209 | and merging again changes nothing |
| Merging.GroupsLocal | decks-core/src/collab.rs:81-85 | groups that neither delete a node nor put it back, recorded, undone or not, write nothing to its tombstone register and only later writes of their own peer elsewhere |
| Merging.DeleteWins | decks-core/src/collab.rs:24-29 | what one peer deleted and the others only moved or edited stays deleted under any merge order and any tree |
| Merging.DeleteRecorded | decks-core/src/collab.rs:220-236 | recording the op that deletes a live slide or object writes a tombstone later than all the replica had |
| Merging.DeletedInGroups | decks-core/src/collab.rs:220-236 | and whatever groups follow that do not put it back leave that tombstone standing |
| Merging.ForkedDeleteWins | decks-core/src/collab.rs:179-209 | for peers forked from one document: one records any groups that only move or edit a slide or object or leave it alone, the other any groups that delete it and do not put it back; it ends deleted whichever takes in the other, in any tree |
| Merging.ForksConverge | decks-core/src/collab.rs:204-209 | two forks under different peers merge to the same registers either way |
| RegisterLaws.RegistersMake | decks-core/src/collab.rs:108-129 | registers make an object of their kind if and only if no field it needs is missing, a picture's crop apart; and it is the object they say |
| ObjectMerges.KeyMerged | decks-core/src/collab.rs:81-106 | two peers write one node's object at once, in any order that begins with the kind: register by register the merge has a change made on one side only, and of two the later in its edit, of two at one turn the larger peer's |
| ObjectMerges.EditsMerge | decks-core/src/collab.rs:88-129 | so it makes an object if and only if each field the winning kind needs survives: the other kind has it too, or the node had none, or it was set anew later than the other removed it |
| ObjectMerges.SameKindMerges | decks-core/src/collab.rs:18-24 | edits that keep the kind are merged field by field, nothing lost: a field one of them changed keeps that change, one both changed has one of the two whole |
| ObjectMerges.MoveAndTextKept | decks-core/src/collab.rs:20-24 | one peer moving a text box while another edits its text keeps both, whichever peer is larger |
| ObjectMerges.WiderKindMerges | decks-core/src/collab.rs:88-129 | an edit that changes the kind to one with no field the other lacks meets an edit that keeps it without loss of the object |
| ObjectMerges.KindsClash | decks-core/src/collab.rs:88-129 | two peers that change one text box at once, one to a circle and one to something as wide as before, lose it: the merge has none, though the node is live |
| ObjectMerges.RecordedEditsMerge | decks-core/src/collab.rs:386-390 | all of which holds of two replicas of one document that each record the edit of one object |
| OdpText.TextStyles.Paragraphs | decks-core/src/odp_text.rs:135-203 | the item-stack printer emits well-formed nested lists for all paragraphs, and the reader's depth counter gives each its content and expected style, numbering renamed as the reader names it; each paragraph stands in the lists and items of the one before down to its own item, and in new ones from there |
| OdpNesting.StandsByTurns | decks-core/src/odp_text.rs:135-203 | by the printed tags: what a paragraph stands in is lists and items by turns, a list outermost |
| OdpNesting.SameList | decks-core/src/odp_text.rs:161-187 | two paragraphs stand in one list of a level if and only if none between them is plain or shallower than that level; so a block is one outermost list, and two of one level with none shallower between share theirs |
| OdpNesting.SameItem | decks-core/src/odp_text.rs:161-187 | they stand in one item of that list if and only if the later and all between are deeper: a deeper paragraph is in the item of the last shallower before it, and no item has two of its own level |
| OdpText.TextStyles.ListName | decks-core/src/odp_text.rs:120-122 | the list style declares for each level its first paragraph's marker, each level once, in order |
| OdpText.CarriedWhole | decks-core/src/odp_text.rs:454-480 | a paragraph comes back whole if and only if its marker is one the reader can name and its level's first (or is what the reader makes of that first) and it leaves no indent to the level |
| OdpText.AlikeComeBack | decks-core/src/odp_text.rs:454-480 | where paragraphs of one level in a block are alike, a style comes back whole if and only if the reader can name its marker |
| OdpText.TooDeep | decks-core/src/odp_text.rs:454-480 | deeper than the ninth level comes back at the ninth |
| OdpText.SchemeComesBack | decks-core/src/odp_text.rs:63-104 | a numbering scheme comes back if and only if it is one of the twenty the reader can name |
| OdpRuns.DistinctStyles | decks-core/src/odp.rs:280-301 | the distinct run styles but the default, each once, in first-use order |
| OdpRuns.StyledParagraphs | decks-core/src/odp.rs:226-276 | printed and read back: the lines are the text, the runs the text without leading breaks, and every character other than a break has its style |
| OdpRuns.TokensEscaped | decks-core/src/odp.rs:193-235 | no text printed as it is has a character XML sets apart, `&`, `<`, `>` or a quote; each such is an entity |
| OdpRuns.StrippedSame | decks-core/src/odp.rs:1506-1514 | the runs read back are the text if and only if the first paragraph is not empty, or there is one only |
| OdpBuilds.EffectComesBack | decks-core/src/odp_builds.rs:15-43 | preset and sub-type printed for an effect read as that effect |
| OdpBuilds.PresetSaysWay | decks-core/src/odp_builds.rs:54-61 | the preset is named entrance or exit, the sub-type from or to, as the object comes or goes |
| OdpBuilds.MotionsShow | decks-core/src/odp_builds.rs:62-90 | an object is shown before it moves or fades in, hidden after it has moved or faded out |
| OdpBuilds.Animations | decks-core/src/odp_builds.rs:47-99 | the printed tree, if there are builds |
| OdpBuilds.BuildReader.Start | decks-core/src/odp_builds.rs:113-136 | the depth counter and the effect being read, at a start or empty element |
| OdpBuilds.BuildReader.End | decks-core/src/odp_builds.rs:138-150 | and at an end |
| OdpBuilds.BuildsComeBack | decks-core/src/odp_builds.rs:47-162 | printed and read back, builds are the same in the same order under any naming that tells the slide's objects apart |
| OdpBuilds.BuildTargets | decks-core/src/odp.rs:817-826 | by the writer's own naming a build comes back on its object if and only if that object is on the slide; one whose object is gone moves to the first object |
| ShapeIds.WithIds | decks-core/src/odp.rs:389-428 | the scan by index computes `WithIdsFrom` |
| ShapeIds.ShapesMarked | decks-core/src/odp.rs:387-428 | for any well-formed markup each top-level element gets its own id, in order, and nothing else changes |
| ShapeIds.EachItsOwn | decks-core/src/odp.rs:387-428 | with one element per object, the k-th has the k-th object's id |
| StyleNames.EncodeName | decks-core/src/odp.rs:885-897 | letters and digits stand, all else as padded hexadecimal between underscores |
| StyleNames.CharEncoded | decks-core/src/odp.rs:885-897 | a letter, digit or `-` stands for itself; all else is two hexadecimal digits or more between underscores |
| StyleNames.DecodeName | decks-core/src/odp.rs:901-922 | the cursor over underscores computes `Decoded` |
| StyleNames.NameComesBack | decks-core/src/odp.rs:885-922 | a name comes back if and only if it is not empty |
| StyleNames.TokensDiffer | decks-core/src/odp.rs:885-897 | different names have different tokens |
| StyleNames.OnlyDelimiters | decks-core/src/odp.rs:885-897 | underscores stand only around escapes |
| StyleNames.CodeComesBack | decks-core/src/odp.rs:885-922 | the padded code of every Unicode scalar value parses back |
| BuildFrames.PlayedIsRest | decks-core/src/builds.rs:85-149 | the end of a build shows on the slide what rests before the next if and only if nothing remains in view, as objects are drawn and turned: no object moved out that still reaches in, none built in after being taken out |
| SlideEdges.OffstageExact | decks-core/src/builds.rs:98-110 | an object moved to an edge it stands at is off the slide, turned by any angle about its centre, if and only if its turned extent that way is no more than its box's |
| SlideEdges.OffstageHidden | decks-core/src/builds.rs:98-110 | wherever it stands, such an object is off the slide; so is any disc |
| SlideEdges.PlayedClear | decks-core/src/builds.rs:85-149 | where what is moved out is, the end of a build is the next one's rest if and only if it is a build out, or its object was not taken out before, or is not in view |
| SlideEdges.TurnedStays | decks/src/canvas.rs:816-831 | a box 20 by 200 turned a quarter and moved out to the left lies across the slide at the end of its build, and is gone at rest |
| BuildFrames.SeenStep | decks-core/src/builds.rs:99-149 | object by object the end of a build is the rest before the next, but for one moved out, which is left where it was moved to, and one built in after being taken out |
| BuildFrames.InThenOutSettles | decks-core/src/builds.rs:85-149 | with at most one build in and one out, in first, every step settles |
| BuildFrames.PartWay | decks-core/src/builds.rs:99-148 | while a build plays its object is on the straight line out across the build's own edge, or as opaque, as the pace has it; one that appears is there at once, and leaves only at the end; the others stand as before |
| BuildFrames.PlayedOut | decks-core/src/builds.rs:124-149 | after the last build the frame no longer depends on time |
| BuildFrames.EaseRises | decks-core/src/magic_move.rs:100-108 | pacing never turns back and stays between start and end |
| MagicMove.MatchObjects | decks-core/src/magic_move.rs:73-98 | a matching within identities, each pick the nearest left, that no pair could be added to |
| MagicMove.NoneNearer | decks-core/src/magic_move.rs:73-98 | of the counterparts free, none is as near both across and down and nearer one way, or as near and before it |
| MagicMove.Parts | decks-core/src/magic_move.rs:165-180 | what leaves underneath, then the second slide's objects in order |
| MagicMove.DrawnOnce | decks-core/src/magic_move.rs:165-180 | whatever is drawn under a matching, every object of the first slide is in exactly one part: leaving, or shared with its one counterpart |
| MagicMove.ComesOnce | decks-core/src/magic_move.rs:165-180 | and every object of the second in exactly one, at its place in the order |
| MagicMove.OpacityEnds | decks-core/src/magic_move.rs:165-180 | the start shows the first slide whole, the end the second; between, what leaves fades as what arrives comes, neither turning back, and what is shared stays whole |
| Markup.ScanTags | decks-core/src/loss.rs:422-477 | the cursor loop computes `StartTags` |
| Markup.FindAttr | decks-core/src/loss.rs:482-535 | and this one `AttrValue` |
| Markup.LocalOfQualified | decks-core/src/loss.rs:392-394 | any prefix is dropped |
| MarkupLaws.ScansExactly | decks-core/src/loss.rs:398-477 | for text, comments that read right, CDATA, instructions, end tags and start tags in any spelling, the scan returns exactly the start tags, in order |
| MarkupLaws.CommentEnd | decks-core/src/loss.rs:422-477 | a comment is taken to end where it does if and only if its text does not begin with `>` or `->` |
| MarkupLaws.CommentExact | decks-core/src/loss.rs:422-477 | a comment leaves the scan of every document around it right if and only if it reads right: it is not taken to end early, or what is then read as markup does no harm |
| MarkupLaws.MisreadComment | decks-core/src/loss.rs:422-477 | one that does not: any start tag commented out after a `>` is returned as if it stood in the document |
| MarkupLaws.AttrsRead | decks-core/src/loss.rs:482-535 | the value found is that of the first attribute with that local name |
| MarkupLaws.PrefixesDoNotMatter | decks-core/src/loss.rs:379-394 | documents that differ only in prefixes, quotes, spacing, comments and text look the same |
| Relationships.ResolvePath | decks-core/src/loss.rs:561-576 | the loop over segments computes `Resolve` |
| Relationships.ResolvedSegments | decks-core/src/loss.rs:561-576 | a relative target resolves to its walk, with a dot segment only if the base has one |
| Relationships.DotInBaseStays | decks-core/src/loss.rs:561-576 | and such a base keeps it |
| Relationships.DotsThatStay | decks-core/src/loss.rs:561-576 | a relative target resolves to a path without a dot segment if and only if the part of the base its walk never leaves has none |
| Relationships.NoDotsExactly | decks-core/src/loss.rs:561-576 | so a base has none if and only if every relative target resolves to a path with none |
| Relationships.RelsResolve | decks-core/src/loss.rs:238-245 | relationships of a part with no dot segment in its path resolve to paths with none |
| Relationships.InternalTargets | decks-core/src/loss.rs:541-558 | the loop over tags computes `Targets` |
| Relationships.ExternalSpelled | decks-core/src/loss.rs:541-558 | a target is passed over as external for that word in any letter case, and no other |
| Relationships.TargetsExactly | decks-core/src/loss.rs:541-558 | exactly the document's internal relationships of the type, in order |

## Left out

- Machine integers: ids, positions, revisions and clocks are unbounded; 64-bit ids and revisions that wrap are not modelled.
- `History::begin`, `end`, `rebase` and `clear` (`suite-common-core/src/ops.rs:86-97` and `:183-212`): Decks does not group or rebase its history.
- Controller.DecksController.constructor: takes masters as they come; the numbering of masters, layouts and placeholders (`ensure_all_ids`, `ensure_theme_ids`, `next_session_id`), and uniqueness across them and slides, are not modelled.
- Text sessions: only that undo, redo and the master view are refused while one is open.
- Object kinds: all seven, each with its own fields; a shape's kind and style, a picture's path and crop, tables and charts are opaque values. Registers always hold a value of their field's type: text that does not parse is not modelled.
- `is_alphanumeric`: which characters count as a word's or a letter is a parameter, over characters as Dafny has them (Unicode scalar values); case and normalisation do not arise.
- Controller calls that only build ops for `apply_ops` (geometry, alignment, formatting, charts, transitions, deleting and moving slides), and the changed-id reports of a transaction.
- The document's transport: JSON values, export and import of updates, fractional indices. The document is an ordered tree with register maps; what a merge does to tree positions is arbitrary (a parameter), only its registers are modelled.
- ReplicaRebuild.RebuiltRunShows: that the tree stays a tree under merges (`Tree.WellFormed`) is the library's promise, and a hypothesis here; that registers list only builds of nodes in it is proved kept (`ReplicaFounded`).
- `fork` and `from_updates` are a rebuild from the document given; failures of the library behind them are not modelled.
- Compaction of tombstones, which the repository leaves to a later phase, and replicated masters, which it does not have.
- ReplicaStart.DocumentShowsDeck: asks that new edits bring ids the deck never had and builds of live objects, which the editor's own calls do; and that no op mints an id where the replica's deck would mint another, without which it is false (`ReplicaDrift.MintExact`, `ReplicaDrift.FailureThenMintParts`).
- Layouts.Arrange: places, roles and the source keys of boxes are modelled; a layout's background and fonts are not.
- OdpRuns.StyledParagraphs: the path for boxes with runs and no paragraph styles. A styled box without runs prints its text through `esc` instead of `esc_breaks` (`decks-core/src/odp.rs:592`), so a line break inside a paragraph is written as a character; that path is not modelled.
- OdpText.TextStyles.Paragraphs: a paragraph's content is opaque; of its style, alignment, level, bullet and indents are modelled; spacing and marker fonts, and the frame's anchor and padding, are not.
- Other parts of the ODF package: geometry and transforms, pictures, graphic styles, page layouts, transitions, the rest of `parse_pages`, and XML tokenising, which is an event stream here.
- MagicMove.Parts: what is drawn and how opaque, not the shape in between (`between`, colour and angle interpolation).
- BuildFrames.EaseRises: over real numbers, as all lengths and times here are; floating-point rounding and lengths printed in points are not modelled.
- MagicMove.MatchObjects: what makes two objects the same (kind and content, pictures by their bytes) is a parameter.
- Markup.ScanTags: works on characters, not on bytes.
- The rest of `loss.rs`: reading packages within a budget, the list of features looked for, and confirming saves.
- Provenance, recovery, snapshots, fragments, templates, guides, presenter and file handling: outside calls or field copying.
- BuildFrames.PlayedIsRest: an object is drawn over its box, turned about its centre (a circle over its disc); outlines, and text past its box, are not modelled. Cosine and sine are given, as functions.
- ObjectMerges.EditsMerge: the order in which an edit removes the fields of other kinds is the document library's; the results hold for every order of writing that begins with the kind.
- ControlDrops.TurnsInStep: changes from outside replace the deck and the masters by any valid ones; `History::rebase`, which would rewrite the stored steps then, is not used by Decks.
