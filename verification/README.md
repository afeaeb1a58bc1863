# Factory Console: a verified model of its file adapter, live updates and reports

The Factory Console shows and edits the planning files of an App Factory project. This
project models the parts of its server that decide something and proves what they promise.

* **Run state and the write gate** (`FileSystem`, `RunStates`, `RunStateDirectory`,
  `RunStateVerdict`, `RunStateJson`, `RunStateGate`, `RunStateAnswers`). The filesystem is a
  tree whose nodes may refuse to be searched, listed, read or resolved. Discovery, resolution in
  both forms and the two gates run on it. The main result is monotonicity in information: a tree
  that reveals less never permits more. What each source, status, marker and failure means for
  the gates is stated of the tree and the document alone.
* **The roadmap** (`Lines`, `TicketIds`, `RoadmapParse`, `RoadmapEdit`, `RoadmapItems`,
  `RoadmapLaws`, `RoadmapMoves`, `RoadmapHeadings`, `RoadmapLines`, `Newlines`,
  `RoadmapOnDisk`). Create, edit and delete rewrite lines of a document that a separate parser
  reads. The results are algebraic laws, for texts and through a file, the editor's agreement
  with the parser, for every kind of change, and which lines it writes.
* **The write path** (`Json`, `Paths`, `Project`, `TicketJson`, `Manifest`, `WriteRender`,
  `EntryLaws`, `AtomicWrite`, `AtomicLaws`, `TicketReader`, `RealWriter`, `FakeWriter`,
  `PlanLaws`, `WriterLaws`, `CreateLaws`, `EntryReading`, `Refusals`, `RoadmapOutcomes`,
  `CrashLaws`, `Simulation`, `PublishedDetails`). One write changes up to three coupled files.
  Plans are computed, guarded, applied in order file by file, and read back. It is proved
  exactly when an edit reads back as the edit and when a delete goes through, whatever file an
  entry declares, which error refuses each request, what the roadmap then holds, and when a
  delete undoes a create; a crash leaves whole files and a manifest that loads, and the
  in-memory writer simulates the production one over any run.
* **Live updates** (`Watcher`, `WatcherLaws`, `WatcherOrder`, `Hub`, `Sse`, `SseStream`,
  `SseProgress`). A step system over the watchdog thread, the event loop, its timers, a stop
  from any thread, and any number of streaming clients. The results hold in every interleaving.
* **Aggregates** (`Spend`, `SpendAggregate`, `SpendLaws`, `SpendRows`, `Ledger`, `Projection`).
  Folds into buckets and indexes, with conservation, order-independence and index agreement.

`Common` holds the vocabulary they share. `dafny verify dfyconfig.toml` checks everything.

## How it is modelled

* Loops that update variables and objects that update fields are methods and classes, each
  proved against a function or a predicate; the laws are lemmas about those. Code made of
  expressions is functions.
* JSON texts are strings behind a codec (`Project.Codec`): `dumps`, `loads` and Python's `str`,
  with the law that loading what was dumped gives the value back, for every value whose objects
  hold each key once. Objects keep their key order.
* A path is a sequence of names, resolved without links. A disk maps paths to files as they were
  written; a directory is there where files lie below it. Reading translates newlines, as text
  mode does, and anything in the way of a path makes opening, replacing or unlinking it fail.
* `mkstemp` picks names and system calls fail as parameters say; a crash is any disk in
  `WriteSite.seen`.
* Money is exact (`real`); rounding to eight places, half to even, is one function.
* A client's event stream and the subscription behind it are coroutines, so they are the steps
  between their suspension points, run in any order with those of other clients and the hub;
  cancelling, awaiting and closing are separate steps. The hub itself is an object too, and the
  steps are shown to change it as its methods do.
* The clock, the order in which threads run, heartbeats, disconnects, the run state of a ticket
  at a gate, and whether a ledger line validates are parameters or steps, so that the results
  hold for all of them.

## Where code and documentation differ

The model follows the code.

* `stop` documents that no event fires after it. A flush that has passed its guard when another
  thread sets the latch still fans out one event (`WatcherLaws.StopDuringFlush`); the exact
  condition is `WatcherLaws.StopIsFinalUnlessFlushing`.
* `_write_depends_on` documents that an entry with neither dependency key gets the producer's
  spelling. In an edit the mirrored `dependsOn` is already there, so it gets that one
  (`EntryLaws.EditedEntryHasOneKey`).
* Deleting is documented to tolerate whatever became of the content file. The ticket is re-read
  first, so a file that is there but invalid or unreadable refuses the delete, and so does a
  declared path with another suffix than `.json` or `.md`, even when nothing is there
  (`CreateLaws.NotesAreNotDeleted`); the exact condition is `CreateLaws.DeleteGoesThrough`.
* A declared path below a regular file has nothing there, but opening it does not say so: edit and
  delete are refused as unreadable (`CreateLaws.NothingUnderAFile`).
* Titles are any strings, and reading a text file turns `"\r\n"` and `"\r"` into `"\n"`. A title
  with a carriage return becomes two roadmap lines, so a delete does not undo its create
  (`CreateLaws.ReturnIsNotUndone`) and the in-memory roadmap, which is not read back, departs
  from the one on disk (`Simulation.ReturnDiverges`). A roadmap with carriage returns is
  rewritten without them by the first change (`CreateLaws.CreateThenDeleteRestoresFile`).
* A create may list an id without a digit in the roadmap; the parser, and so a later delete,
  does not see it (`RoadmapLaws.CreateThenDeleteRestores`).
* The in-memory writer validates ids by pattern alone, so it accepts `.` and `..`
  (`Simulation.DotsDiverge`, `Simulation.DotsDivergeOnEdit`, `Simulation.DotsDivergeOnDelete`),
  and it publishes a `filePath` no read returns (`PublishedDetails.DetailsCompare`).
* An edit is documented to return what a later read would. An entry may declare the manifest as
  its content file (`WriterLaws.ManifestCanBeDeclared`); an edit then overwrites the manifest
  (`WriterLaws.EditOverManifest`). One that declares the run state is refused only when the plan
  is applied (`WriterLaws.RunStateCanBeDeclared`). The exact condition is
  `WriterLaws.EditReadsBack`.

## Model

| member | source | states |
|---|---|---|
| `RunStateGate.PermissionsAreMonotone` | server/factory_console/file_adapter/run_state.py:37-51 | For every tree, every degradation of it by access failures (bits cleared, nodes made unresolvable) and every id: discovery, resolution and gating on the degraded tree permit a subset of the writes permitted on the original |
| `RunStateGate.DegradedAnswerIsSameOrRefused` | server/factory_console/file_adapter/run_state.py:37-51 | Losing access leaves the answer the same or turns it into one both gates refuse; it never turns it into another permissive one |
| `RunStateGate.DiscoveryDegrades` | server/factory_console/file_adapter/run_state.py:264-315 | On a degraded tree discovery stops at the same source or at one it could not probe, and never finds nothing where there was a source |
| `RunStateGate.UnprobeableSourceRefuses` | server/factory_console/file_adapter/run_state.py:264-315 | A source whose location could not be probed refuses every id, in both forms |
| `RunStateGate.SourceAnswerDegrades` | server/factory_console/file_adapter/run_state.py:1549-1950 | One source on a degraded tree gives the same answer or a refusal, in the JSON form and the directory form |
| `RunStateGate.VerdictDegrades` | server/factory_console/file_adapter/run_state.py:921-1167 | The directory form: the verdict on a degraded tree is the same or `unreadable` |
| `RunStateGate.PermissionsByState` | server/factory_console/file_adapter/write_gate.py:69-87 | `todo` and `unknown` permit edit and delete, `absent` permits delete only, every other state and a traversal nothing |
| `RunStateVerdict.DirectoryResolversAgree` | server/factory_console/file_adapter/run_state.py:1549-1950 | The once-settled resolver and the one-id probe give the same state for every tree and every safe id; for an unsafe id the probe always raises, the settled one exactly when it gets as far as the directory |
| `RunStateVerdict.ProbeGivesVerdict` | server/factory_console/file_adapter/run_state.py:921-1167 | The early-return walk computes the declarative verdict: who may hold the id decides, in precedence order, whatever could not be looked up refusing |
| `RunStateVerdict.ResolverGivesVerdict` | server/factory_console/file_adapter/run_state.py:1739-1950 | The settled resolver computes the same verdict although the canary check and the vacuity scan are done up front |
| `RunStateVerdict.PermissiveProbesAreJustified` | server/factory_console/file_adapter/run_state.py:728-1167 | `absent` if and only if the listing worked, no state directory, ranked or not, may hold the id, and some state directory lists a ticket; `todo` if and only if the listing worked, `todo` holds the id and every other state provably does not; `unknown` if and only if there is no directory, or every state in it was looked in, provably does not hold the id and lists no ticket |
| `RunStateVerdict.PermissiveResolutionsAreJustified` | server/factory_console/file_adapter/run_state.py:1549-1950 | The same for the settled resolver |
| `RunStateVerdict.ReasonNamesTheState` | server/factory_console/file_adapter/run_state.py:607-725 | A reason comes only with `unreadable`, and names an unranked state directory in which the id is found |
| `RunStateVerdict.ScanDecides` | server/factory_console/file_adapter/run_state.py:728-834 | The vacuity scan says yes if some state lists a ticket, cannot tell if otherwise some state could not be listed, and no only if every state was listed and holds none |
| `RunStateDirectory.UnrecognisedStateNames` | server/factory_console/file_adapter/run_state.py:464-604 | The loop returns the sorted unranked state names, and nothing else, whatever order the listing came in |
| `RunStateJson.ReadJsonRunState` | server/factory_console/file_adapter/run_state.py:1170-1354 | The reading loop computes the parse for every document and every read failure |
| `RunStateJson.ParseSplitsIds` | server/factory_console/file_adapter/run_state.py:1277-1354 | Mapped ids and unclassifiable ids are disjoint and together are exactly the known ids |
| `RunStateJson.ParseRecordsClaims` | server/factory_console/file_adapter/run_state.py:1277-1354 | What is recorded for an id is what its own entry says: a mapped state, or why it could not be mapped |
| `RunStateJson.ParseCollectsUnmapped` | server/factory_console/file_adapter/run_state.py:1277-1354 | `unrecognised` is the duplicate-free first-seen list of unmapped statuses |
| `RunStateJson.JsonAnswers` | server/factory_console/file_adapter/run_state.py:1357-1404 | An id's own entry decides its answer; without one only an unreadable or silent document leaves it anything but `absent`; a reason is returned only with `unreadable` |
| `RunStateAnswers.SourcesInOrder` | server/factory_console/domain/run_state_source.py:145-149 | Discovery asks `.factory/run-state.json` if it is a regular file, else `.factory/run-state`, else `docs/planning/.run-state` if it is a directory; what cannot be probed is taken for present |
| `RunStateAnswers.NoSourcePermitsAll` | server/factory_console/file_adapter/run_state.py:264-315 | With none of the three there, every id is `unknown` and both writes are permitted |
| `RunStateAnswers.StatusIsAnswered` | server/factory_console/file_adapter/run_state.py:153-163 | Said of the document alone: each of the nine factory statuses is answered by its own state, and any other refused by its name |
| `RunStateAnswers.OnlyTodoPermits` | server/factory_console/file_adapter/write_gate.py:69-87 | Of all statuses, known or not, only `todo` permits an edit or a delete |
| `RunStateAnswers.EntryWithoutStatus` | server/factory_console/file_adapter/run_state.py:1357-1404 | An entry that is no object, has no status, or one that is no string refuses with its own reason; a ticket not listed beside others may only be deleted; a file that lists nobody permits both |
| `RunStateAnswers.FileWithoutTickets` | server/factory_console/file_adapter/run_state.py:1170-1276 | A file that cannot be looked up or read refuses both writes; one that is no JSON or has no `tickets` object permits both |
| `RunStateAnswers.UnmappedInDocumentOrder` | server/factory_console/file_adapter/run_state.py:1277-1354 | The statuses reported as unknown are those of the document outside the nine, once each, in the order of their first entries |
| `RunStateAnswers.MarkersAreRead` | server/factory_console/file_adapter/run_state.py:121 | Both directory resolvers read `merged`, `ready`, `in-flight` and `todo` as those states, each exactly when it holds the id, the higher ones provably do not, and no unranked one may |
| `RunStateAnswers.ReasonIsFirstHolder` | server/factory_console/file_adapter/run_state.py:607-725 | The reason of a refusal is the first unranked state directory, in string order, in which the id is found; and it is given exactly when there is one and `merged` could be probed |
| `RunStateAnswers.TicketIsListed` | server/factory_console/file_adapter/run_state.py:728-834 | A state directory lists a ticket when it can be listed and some name in it does not begin with a dot and is made of letters, digits, `_`, `.` and `-` |
| `RunStateAnswers.RefusalSays` | server/factory_console/file_adapter/write_gate.py:269-294 | A gate that refuses reports the state it resolved and the reason that came with it |
| `FileSystem.ProbesDegrade` | server/factory_console/file_adapter/path_safety.py:57-77 | `stat`, `iterdir` and reads on a degraded tree answer the same or fail: no failure becomes an absence |
| `RoadmapParse.ParseMilestones` | server/factory_console/file_adapter/roadmap_parse.py:110-148 | The parsing walk gives one milestone per heading, in order, each with the list items up to the next heading |
| `RoadmapParse.ParserReadsEditorLines` | server/factory_console/file_adapter/roadmap_parse.py:110-148 | On text whose only line boundary is the newline, the parser sees the lines the editor splits, up to a final blank one |
| `RoadmapParse.ExtractedLooksLikeId` | server/factory_console/file_adapter/roadmap_parse.py:49-78 | Only tokens that match the id pattern and hold a digit are ever taken for ids |
| `RoadmapParse.BoldIdIsFound` | server/factory_console/file_adapter/roadmap_parse.py:66-78 | A bold id is what a candidate search starting at it extracts |
| `RoadmapParse.ParenthesisedIdIsFound` | server/factory_console/file_adapter/roadmap_parse.py:66-78 | And so is a parenthesised one |
| `RoadmapHeadings.HeadingLineIsRead` | server/factory_console/file_adapter/roadmap_parse.py:134-137 | Two hashes and a space make the rest of a line, stripped, a heading; three hashes do not |
| `RoadmapEdit.SectionInsertIndex` | server/factory_console/file_adapter/write_render.py:479-495 | The insertion loop lands behind the section's last item when it has one, otherwise before its trailing blank lines and behind its last other line |
| `RoadmapEdit.RoadmapCreateText` | server/factory_console/file_adapter/write_render.py:443-553 | The create transform, with its three loops over headings and items, computes the function the laws below are about |
| `RoadmapEdit.RoadmapEditText` | server/factory_console/file_adapter/write_render.py:454-606 | The edit transform, with its search for the item and its walk back to the heading, computes the function the laws below are about |
| `RoadmapEdit.RoadmapDeleteText` | server/factory_console/file_adapter/write_render.py:609-619 | The delete loop removes the first line that carries the id, and answers nothing exactly when none does |
| `RoadmapItems.NewItemLineIsRead` | server/factory_console/file_adapter/write_render.py:423-425 | A created line is read as a list item with the label as its text and, as its ticket, the id when that has a digit, otherwise whatever ticket the title names |
| `RoadmapItems.RebuiltLineCarries` | server/factory_console/file_adapter/write_render.py:498-521 | A relabelled line carries the id, and relabelling it again changes nothing |
| `RoadmapItems.RebuiltLineKeepsPrefix` | server/factory_console/file_adapter/write_render.py:498-521 | Relabelling keeps the line's indentation, bullet, gap and checkbox, and replaces exactly what stands behind them |
| `RoadmapItems.RebuiltLineIsRead` | server/factory_console/file_adapter/write_render.py:498-521 | A relabelled line is read as a list item whose text is the label and whose id is the ticket's |
| `RoadmapHeadings.MatchesUpToSeparator` | server/factory_console/file_adapter/write_render.py:428-440 | A heading names a milestone if and only if it is the milestone, or the milestone followed by a space, an em dash or a colon and anything |
| `RoadmapHeadings.MatchIsFirstWord` | server/factory_console/file_adapter/write_render.py:428-440 | So a one-word milestone is named by exactly the headings whose first word it is |
| `RoadmapHeadings.OneMilestoneIsNamed` | server/factory_console/file_adapter/write_render.py:428-440 | No heading names two one-word milestones |
| `RoadmapHeadings.CreateGoesUnderItsWord` | server/factory_console/file_adapter/write_render.py:443-553 | Where the headings have distinct first words, a create for a one-word milestone adds its item last under the one heading whose first word it is |
| `RoadmapLines.CreatedLineIs` | server/factory_console/file_adapter/write_render.py:423-553 | A create that finds its section adds one line, `- **id** `, an em dash and the title, and leaves every other line as it was |
| `RoadmapLines.EditedLineIs` | server/factory_console/file_adapter/write_render.py:556-606 | An edit relabels the first item naming the ticket where it stands, keeping indentation, bullet, gap and checkbox, exactly when no milestone is asked for, its section matches, or none does; otherwise that line goes and one plain line comes; for any number of items |
| `RoadmapLines.BoxIsKept` | server/factory_console/file_adapter/write_render.py:70 | `[ ]`, `[x]` and `[X]` are checkboxes, kept by an edit and no part of the text that is read; any other bracket is text |
| `RoadmapLaws.EditTouchesOneItem` | server/factory_console/file_adapter/write_render.py:556-606 | With at most one item carrying the id: an edit changes nothing exactly when none does; otherwise every other line keeps its text and order, and when some section matches the milestone the item ends inside a matching one |
| `RoadmapLaws.EditIsIdempotent` | server/factory_console/file_adapter/write_render.py:556-606 | Editing twice is editing once |
| `RoadmapLaws.DeleteAbsorbsEdit` | server/factory_console/file_adapter/write_render.py:609-619 | Deleting after an edit is deleting |
| `RoadmapLaws.CreateThenDeleteRestores` | server/factory_console/file_adapter/write_render.py:524-619 | As texts, creating and deleting an id no item named gives back the text character for character, if and only if the id has a digit or no section matches |
| `RoadmapOnDisk.CreateThenDeleteOnDisk` | server/factory_console/file_adapter/write_render.py:161-172 | Through a text file, whose newlines a read translates, they give back the text if and only if no section matches, or the id has a digit and the title is one line: it holds no line break but a final carriage return that the newline behind it absorbs |
| `Newlines.UniversalIsSame` | server/factory_console/file_adapter/write_render.py:161-172 | A text file is read as it was written exactly when it holds no carriage return |
| `Newlines.EachBreakIsRead` | server/factory_console/file_adapter/write_render.py:161-172 | Carriage return and newline, either alone: each is read as one newline, and what stands before and behind stays |
| `RoadmapLaws.CreateAgreesWithParser` | server/factory_console/file_adapter/write_render.py:524-553 | Parsing the created text gives the old milestones with exactly one item, bearing the label and the ticket it names, last in the first milestone whose name matches; nothing is created exactly when none does |
| `RoadmapLaws.EditInPlaceAgreesWithParser` | server/factory_console/file_adapter/write_render.py:556-606 | Parsing a text edited in place gives the old milestones with one item of one milestone replaced by the new label and the same id |
| `RoadmapMoves.MoveAgreesWithParser` | server/factory_console/file_adapter/write_render.py:556-606 | Parsing a text whose edit moves the item gives the old milestones with the item gone from its milestone and the new one, bearing the id and label, last in the first milestone whose name matches |
| `RoadmapMoves.DeleteAgreesWithParser` | server/factory_console/file_adapter/write_render.py:609-619 | Parsing the text after a delete gives the old milestones with one item of one milestone gone, or the same milestones when the line stood before every heading; nothing changes exactly when no item carries the id |
| `RoadmapMoves.CutFromDocument` | server/factory_console/file_adapter/roadmap_parse.py:110-148 | An item line taken out of a section takes the one item at its place out of that milestone and touches no other |
| `RoadmapLaws.InsertIntoDocument` | server/factory_console/file_adapter/roadmap_parse.py:110-148 | An item line put behind a section's last item changes that one milestone and no other |
| `Manifest.LoadManifestDocument` | server/factory_console/file_adapter/manifest.py:103-173 | A manifest loads exactly when it is readable JSON with a list of objects in which no two share a string id; the one-pass scan for duplicates agrees with that statement |
| `EntryReading.ManifestIsAccepted` | server/factory_console/file_adapter/manifest.py:103-173 | A text is a manifest exactly when it is an object whose `tickets` is a list of objects, no two with one string id; the document holds those objects in order |
| `EntryReading.DependenciesAreRead` | server/factory_console/file_adapter/manifest.py:176-198 | `depends_on` decides where it names anything; otherwise `dependsOn`; otherwise there are none |
| `EntryReading.OddDependencies` | server/factory_console/file_adapter/manifest.py:194-198 | A string counts as its characters, an object as its keys, `true` and a number other than zero are refused, and what is falsy names nothing |
| `EntryReading.StubIsRead` | server/factory_console/file_adapter/manifest.py:236-263 | Exactly which entries read as a stub, and as which: id, title, status, track, milestone, dependencies, provides and files, each with its default |
| `EntryReading.ContentPathIs` | server/factory_console/file_adapter/write_render.py:132-145 | The file of an entry is its declared path, contained under the root; without one, `docs/planning/tickets/<id>.md` |
| `EntryReading.CreatedEntryIsWritten` | server/factory_console/file_adapter/write_render.py:224-266 | A created entry, key by key in the order it is written |
| `Manifest.ReadAndWriteResolveAlike` | server/factory_console/file_adapter/manifest.py:213-233 | Reader and writer resolve every entry to the same file, or both refuse it |
| `Paths.RelPosixReadsBack` | server/factory_console/file_adapter/path_safety.py:239-268 | A path written relative to the root, read back and contained, is the path |
| `Paths.ClimbingOutIsRefused` | server/factory_console/file_adapter/path_safety.py:239-268 | A path that begins with `..` is refused, unless it comes straight back by the root's own name |
| `Paths.AbsoluteIsContained` | server/factory_console/file_adapter/path_safety.py:239-268 | An absolute path is taken as it stands, and only under the root |
| `Paths.PathIsRead` | server/factory_console/file_adapter/write_render.py:132-145 | A leading slash makes a path absolute, a leading `.` is dropped, any other first name counts |
| `Paths.SuffixIsAfterLastDot` | server/factory_console/file_adapter/write_render.py:371-397 | The suffix is what follows the last dot, when something stands before and behind it |
| `Paths.JsonInAnyCase` | server/factory_console/file_adapter/write_render.py:371-397 | It is `.json` for those four letters in either case, and for nothing else |
| `TicketJson.RenderReadsBack` | server/factory_console/file_adapter/write_render.py:332-368 | Rendering succeeds exactly on fields the schema allows, and the reader gives back all of them, with empty notes as none |
| `TicketJson.ParsedContentRendersBack` | server/factory_console/file_adapter/ticket_json.py:147-176 | Whatever the reader accepts can be rendered and read again without losing anything but empty notes |
| `EntryReading.ContentIsAccepted` | server/factory_console/file_adapter/ticket_json.py:147-176 | A content file is accepted, and as which fields, exactly when it has the id it was reached by, the five sections none of them empty, and no other key |
| `EntryReading.ContentIsWritten` | server/factory_console/file_adapter/write_render.py:332-368 | A rendered content file, key by key in the order it is written, empty notes left out |
| `WriteRender.WriteDependsOn` | server/factory_console/file_adapter/write_render.py:299-314 | The pop-and-set loop stores the list under the one key the laws below describe |
| `EntryLaws.DependsOnIsWritten` | server/factory_console/file_adapter/write_render.py:299-314 | Storing dependencies leaves exactly one spelling, the one the entry used before, and every other key untouched |
| `EntryLaws.DependsOnReadsBack` | server/factory_console/file_adapter/manifest.py:176-198 | What is stored is read back, the empty list included |
| `EntryLaws.EditedEntryHasOneKey` | server/factory_console/file_adapter/write_render.py:288-314 | An edited entry has exactly one dependency key, which reads back as the edited list; it is the factory's spelling exactly when the entry had that |
| `EntryLaws.EditedEntryHoldsEdit` | server/factory_console/file_adapter/write_render.py:269-296 | Title, track, milestone and provides are the edit's |
| `EntryLaws.EditedEntryKeepsRest` | server/factory_console/file_adapter/write_render.py:288-296 | Every other key keeps its value: id, status, path and unknown ones |
| `WriterLaws.EditReadsBack` | server/factory_console/file_adapter/real_writer.py:141-171 | The whole outcome of every permitted, planned edit, whatever file its entry declares: it reads back as the edited ticket if and only if the guard lets the declared file be written, that file is not the manifest, and the reader can stream past the older entries to this one; an unsafe path leaves the disk as it was |
| `WriterLaws.EditKeepsOtherEntries` | server/factory_console/file_adapter/write_render.py:700-760 | On the disk an edit leaves, one manifest entry is replaced; all others, in order, and all other top-level keys are unchanged |
| `WriterLaws.EditKeepsOtherFiles` | server/factory_console/file_adapter/write_render.py:700-760 | No edit, refused or not, touches a file other than the manifest, the declared file and the roadmap |
| `Refusals.CreateIsRefused` | server/factory_console/file_adapter/write_render.py:653-697 | The error of a create: an unusable id, an unreadable manifest, an id it already has, fields that cannot be stored, in that order; nothing is written; and in no other case is it not planned |
| `Refusals.EditIsRefusedEarly` | server/factory_console/file_adapter/real_writer.py:141-171 | The error of an edit before it looks at the entry: run state, id, manifest, unknown ticket, in that order; nothing is written |
| `Refusals.EditIsRefused` | server/factory_console/file_adapter/write_render.py:700-760 | And of one that finds its entry: its path, a retired or unsupported format, an unreadable file, fields that cannot be stored, a target the guard refuses, in that order; in no other case is it not planned |
| `Refusals.DeleteIsRefusedEarly` | server/factory_console/file_adapter/real_writer.py:173-207 | The error of a delete before it looks at the entry, in the same order |
| `Refusals.DeleteIsRefused` | server/factory_console/file_adapter/write_render.py:763-806 | A delete that finds its entry is planned exactly when the entry's path resolves, and refused as a traversal otherwise |
| `RoadmapOutcomes.EditedRoadmapIsRead` | server/factory_console/file_adapter/write_render.py:752-760 | For every permitted, planned edit of a safe file other than the manifest: what is read of the roadmap afterwards is the old text edited to the edit's milestone and title, newlines translated, and nothing if it could not be read |
| `RoadmapOutcomes.EditMovesItemOnDisk` | server/factory_console/file_adapter/write_render.py:556-606 | On that disk, for a one-line title and at most one item of the ticket: the roadmap is as it was when no item names it; otherwise one item has the new label and the id, stands in a section the edit's milestone matches if there is one, and every other line is as it was |
| `RoadmapOutcomes.CreateFilesItemOnDisk` | server/factory_console/file_adapter/write_render.py:622-697 | After a create that went through, what is read of the roadmap has exactly one item more, last in the first milestone the draft's milestone matches; or is as it was |
| `RoadmapOutcomes.DeleteTakesItemOnDisk` | server/factory_console/file_adapter/write_render.py:609-645 | After a delete that went through, what is read of the roadmap has the ticket's line taken out and every other line as it was, and no item names the ticket |
| `WriterLaws.EditOverManifest` | server/factory_console/file_adapter/write_render.py:132-145 | When the entry does declare the manifest, the edit leaves no readable manifest |
| `WriterLaws.ManifestCanBeDeclared` | server/factory_console/file_adapter/write_render.py:132-145 | An entry declaring `docs/planning/tickets.json` resolves to the manifest, and passes the format check and the guard |
| `WriterLaws.RunStateCanBeDeclared` | server/factory_console/file_adapter/atomic_write.py:138-182 | An entry declaring `.factory/run-state.json` resolves under the root and passes the format check; only the guard refuses it |
| `WriterLaws.MergedStub` | server/factory_console/file_adapter/manifest.py:236-263 | The stub of an edited entry is the edit over its id and status; it cannot be read exactly when what an edit does not overwrite, the status or a legacy file list, is mistyped |
| `TicketReader.FindStubIsFindEntry` | server/factory_console/file_adapter/manifest.py:266-289 | Over readable entries the stub stream finds the entry the index search finds |
| `TicketReader.FindStubAt` | server/factory_console/file_adapter/real.py:160-180 | The stub stream reaches the entry the index search finds if and only if every entry up to it can be read |
| `CreateLaws.CreateReadsBack` | server/factory_console/file_adapter/real_writer.py:97-139 | The whole outcome of a planned create: with a file or directory in the way of its content file it stops with the manifest already written; otherwise it lands, and its answer is the draft with status `todo` if and only if the reader can stream past every older entry |
| `CreateLaws.CreateLands` | server/factory_console/file_adapter/write_render.py:653-697 | After a create the manifest is the old one with the entry appended, and the content file holds the fields |
| `CreateLaws.DeleteGoesThrough` | server/factory_console/file_adapter/real_writer.py:173-207 | Every permitted, planned delete, whatever file its entry declares, goes through if and only if every entry up to it can be read, the file's suffix is `.json` or `.md`, opening the file says it is not there or gives a text that, for `.json`, is valid for this id, and the guard lets it be removed; it answers the ticket as it last was, a refusal touches nothing, and the manifest itself is never removed |
| `CreateLaws.RereadOf` | server/factory_console/file_adapter/real_writer.py:229-245 | The read before a delete: which error refuses it in each case, and the stub alone when the file is gone |
| `CreateLaws.DeleteIsPlanned` | server/factory_console/file_adapter/write_render.py:763-806 | A delete is planned exactly when the manifest has an entry of a well-formed id whose declared path resolves |
| `CreateLaws.NotesAreNotDeleted` | server/factory_console/file_adapter/ticket_content.py:188-213 | One refused input: an entry declaring `notes.txt` cannot be deleted, even when that file is gone |
| `CreateLaws.NothingUnderAFile` | server/factory_console/file_adapter/ticket_json.py:256-261 | Another: an entry declaring `ROADMAP.md/x.json` where `ROADMAP.md` is a file has nothing there, and yet can be neither deleted nor edited, because opening it raises another error than a missing file |
| `CreateLaws.DeleteLands` | server/factory_console/file_adapter/write_render.py:763-806 | On the disk a delete that went through leaves, the manifest is the old one without the entry, and the declared file is gone, unless it is the roadmap and an item of the ticket was taken out of it |
| `CreateLaws.DeleteKeepsOtherFiles` | server/factory_console/file_adapter/write_render.py:763-806 | No delete, refused or not, touches a file other than the manifest, the declared file and the roadmap |
| `CreateLaws.CreateThenDeleteRestoresManifest` | server/factory_console/file_adapter/real_writer.py:97-207 | Deleting a ticket whose create went through: the manifest is the one before, key for key and entry for entry in order, and the content file is gone |
| `CreateLaws.CreateThenDeleteRestoresRoadmap` | server/factory_console/file_adapter/write_render.py:622-645 | And the roadmap reads as before if and only if no section matches, or the id has a digit and the title is one line |
| `CreateLaws.CreateThenDeleteRestoresFile` | server/factory_console/file_adapter/write_render.py:161-172 | And its file is the one before, byte for byte, if and only if no section matches, or that holds and the file had no carriage return |
| `CreateLaws.ReturnIsNotUndone` | server/factory_console/file_adapter/atomic_write.py:205-208 | The failing case: a ticket titled `a`, carriage return, `b` leaves a line in the roadmap after it is deleted |
| `CreateLaws.CreateThenDeleteKeepsOthers` | server/factory_console/file_adapter/write_render.py:653-806 | And no other file is touched |
| `AtomicWrite.WriteSite.ApplyChanges` | server/factory_console/file_adapter/atomic_write.py:77-119 | An unsafe target leaves the disk untouched; otherwise every disk a crash could leave has the first changes whole and the rest not at all, beside at most one temporary file that is empty, partly or wholly written; something in the way of a change, or a system call that raises `OSError`, stops the apply there and leaves the temporary only if removing it failed too; success applies every change and lists the paths in order |
| `AtomicWrite.WriteSite.AtomicReplace` | server/factory_console/file_adapter/atomic_write.py:185-211 | One file: at every moment the old text or the new text, never a mixture |
| `AtomicWrite.GuardAll` | server/factory_console/file_adapter/atomic_write.py:138-154 | The guard passes exactly the plans whose targets are all under the root and outside every run-state location |
| `AtomicWrite.OrderedIs` | server/factory_console/file_adapter/atomic_write.py:122-135 | The apply order is by rank and keeps every change |
| `AtomicWrite.OrderKeepsCount` | server/factory_console/file_adapter/atomic_write.py:122-135 | Ordering neither drops nor repeats a change |
| `AtomicLaws.EveryFileIsWhole` | server/factory_console/file_adapter/atomic_write.py:77-119 | At every intermediate state each planned file is whole, old or new, and the new ones are a prefix of the apply order |
| `AtomicLaws.OtherFilesStay` | server/factory_console/file_adapter/atomic_write.py:185-211 | Every file that is neither planned nor temporary is untouched in every intermediate state |
| `AtomicLaws.NewFilesComeInRankOrder` | server/factory_console/file_adapter/atomic_write.py:49-54 | In every intermediate state no later-ranked file is new while an earlier-ranked one is old |
| `AtomicLaws.LandsInOrder` | server/factory_console/file_adapter/atomic_write.py:122-135 | Whatever order a plan lists them in, the manifest lands first and the roadmap last |
| `AtomicLaws.NewFilesComeInOrder` | server/factory_console/file_adapter/atomic_write.py:49-54 | In every intermediate state a content file is new only with its new manifest, and the roadmap only with both |
| `AtomicLaws.RunStateIsOutOfReach` | server/factory_console/file_adapter/atomic_write.py:157-182 | The guard refuses exactly what is not under the root, or is at or under `.factory/run-state.json`, `.factory/run-state`, `docs/planning/.run-state` or the discovered source |
| `AtomicLaws.TemporaryIsBeside` | server/factory_console/file_adapter/atomic_write.py:185-211 | A temporary file stands in its target's directory, under a dot, the target's name, a token and `.tmp` |
| `AtomicLaws.TemporariesStayOutOfRunState` | server/factory_console/file_adapter/atomic_write.py:157-182 | Neither a guarded target nor any temporary file beside it lies in a run-state location |
| `CrashLaws.CreateSurvives` | server/factory_console/file_adapter/atomic_write.py:77-119 | Whenever a crash interrupts a planned create, the manifest loads as the old one or as the old one with the entry appended |
| `CrashLaws.EditSurvives` | server/factory_console/file_adapter/atomic_write.py:77-119 | Likewise an edit, unless the entry declares the manifest as its content file |
| `CrashLaws.DeleteSurvives` | server/factory_console/file_adapter/atomic_write.py:77-119 | Likewise a delete |
| `RealWriter.CreateTicket` | server/factory_console/file_adapter/real_writer.py:97-139 | When no system call fails by itself, the method leaves the disk and answer of the create outcome |
| `RealWriter.EditTicket` | server/factory_console/file_adapter/real_writer.py:141-171 | Likewise the edit outcome; refused by the run state, nothing is touched |
| `RealWriter.DeleteTicket` | server/factory_console/file_adapter/real_writer.py:173-207 | Likewise the delete outcome; refused by the run state, nothing is touched |
| `FakeWriter.FakeFileWriter.CreateTicket` | server/factory_console/file_adapter/fake_writer.py:107-124 | The in-memory create updates manifest, contents and roadmap as the step the simulation is about |
| `FakeWriter.FakeFileWriter.EditTicket` | server/factory_console/file_adapter/fake_writer.py:126-163 | Likewise the in-memory edit |
| `FakeWriter.FakeFileWriter.DeleteTicket` | server/factory_console/file_adapter/fake_writer.py:165-199 | Likewise the in-memory delete |
| `FakeWriter.FakeFileWriter.ApplyRoadmap` | server/factory_console/file_adapter/fake_writer.py:376-383 | The first planned change of the roadmap's path becomes the roadmap |
| `Simulation.CreateSimulates` | server/factory_console/file_adapter/fake_writer.py:107-124 | From the same tickets a create leaves the same tickets and gives the same answer: the same error, or a ticket with the same id, title, status, track, milestone, dependencies, provides and content fields, up to empty notes; a refusal changes nothing on either side; the same roadmaps stay the same if and only if no carriage return of the title goes in |
| `Simulation.EditSimulates` | server/factory_console/file_adapter/fake_writer.py:126-163 | Likewise an edit the run state permits, the roadmaps included; one it forbids both refuse, for the same reason if and only if the ticket is known and the fields can be stored |
| `Simulation.DeleteSimulates` | server/factory_console/file_adapter/fake_writer.py:165-199 | Likewise a delete the run state permits, which always keeps the same roadmaps the same; one it forbids both refuse, for the same reason if and only if the ticket is known |
| `Simulation.RunsSimulate` | server/factory_console/file_adapter/fake_writer.py:43-88 | Along any sequence of creates, edits and deletes every permitted request gets the same answer from both writers, every other is refused by both, and they keep the same tickets, with unique ids; and the same roadmap, if no title holds a carriage return |
| `Simulation.ReturnDiverges` | server/factory_console/file_adapter/fake_writer.py:376-383 | The failing case: creating and deleting a ticket titled `a`, carriage return, `b` gives back the in-memory roadmap and not the one on disk |
| `Simulation.DotsDiverge` | server/factory_console/file_adapter/fake_writer.py:494-504 | From the same tickets the two answer a create alike if and only if the id is neither `.` nor `..` |
| `Simulation.DotsDivergeOnEdit` | server/factory_console/file_adapter/fake_writer.py:494-504 | They answer a permitted edit alike if and only if the id is neither of those or names no entry |
| `Simulation.DotsDivergeOnDelete` | server/factory_console/file_adapter/fake_writer.py:494-504 | And a permitted delete |
| `PublishedDetails.DetailsCompare` | server/factory_console/file_adapter/fake_writer.py:435-477 | The rest of the published ticket: the Markdown is the same; the raw entry is, but for the front matter a read adds; the run state is if and only if none was seeded; the file path never is, and the in-memory writer renders no HTML |
| `Watcher.RealFileWatcher.Dispatch` | server/factory_console/file_adapter/watcher_real.py:548-557 | A dispatch only posts to the loop, raises when the loop is closed, and does nothing once the watcher is stopped |
| `Watcher.RealFileWatcher.Coalesce` | server/factory_console/file_adapter/watcher_real.py:559-570 | One coalesce cancels the path's timer, stores the change and arms a timer one window ahead; stopped, nothing |
| `Watcher.RealFileWatcher.Flush` | server/factory_console/file_adapter/watcher_real.py:572-593 | One flush takes the path out of both maps and emits its pending change; stopped, nothing |
| `Watcher.RealFileWatcher.Discard` | server/factory_console/file_adapter/watcher_real.py:466-476 | The cancelling loop cancels exactly the armed timers and empties both maps |
| `Watcher.RealFileWatcher.Stop` | server/factory_console/file_adapter/watcher_real.py:410-450 | On the loop the state is discarded at once, off it a discard is posted, and with the loop closed the maps are emptied |
| `WatcherLaws.StepKeeps` | server/factory_console/file_adapter/watcher_real.py:548-593 | Every step of every thread keeps: equal key sets, one live timer per pending path, and the timer standing for the latest change |
| `WatcherLaws.DebounceContract` | server/factory_console/file_adapter/watcher_real.py:548-593 | After any interleaving: pending and timers name the same paths, and every emitted event carried its path's latest change, at least one window after it, with nothing about the path between |
| `WatcherLaws.EveryChangeHasItsFate` | server/factory_console/file_adapter/watcher_real.py:559-593 | Every coalesced change is superseded, emitted as it was one window later or more, dropped after a stop, or still pending under its timer |
| `WatcherLaws.EmittedForOneChange` | server/factory_console/file_adapter/watcher_real.py:572-593 | No two coalesced changes, of one path or of two, end in the same emitted event |
| `WatcherLaws.RunKeeps` | server/factory_console/file_adapter/watcher_real.py:548-593 | Every reachable state has that invariant |
| `WatcherOrder.ChangesArriveInOrder` | server/factory_console/file_adapter/watcher_real.py:548-570 | Every change a thread gets past the guard is taken to the loop at most once and as it is; the loop coalesces the changes posted to it in that order and leaves none out, up to a stop |
| `WatcherOrder.WindowIsLong` | server/factory_console/file_adapter/watcher_real.py:71 | No change goes out sooner than 150 milliseconds after it was coalesced |
| `WatcherLaws.StopIsFinalUnlessFlushing` | server/factory_console/file_adapter/watcher_real.py:410-450 | Once the latch is set no event is emitted in any continuation, if and only if no flush had passed its guard |
| `WatcherLaws.StoppedRun` | server/factory_console/file_adapter/watcher_real.py:410-450 | In any continuation of a stopped watcher at most one event more is emitted |
| `WatcherLaws.StopOnLoopIsFinal` | server/factory_console/file_adapter/watcher_real.py:453-464 | A stop on the loop thread is always final |
| `WatcherLaws.DispatchArms` | server/factory_console/file_adapter/watcher_real.py:548-570 | From the start, one dispatch of any path that is posted and run arms one timer for it |
| `WatcherLaws.StopDuringFlush` | server/factory_console/file_adapter/watcher_real.py:410-450 | From there, an interleaving in which `stop` has set the latch, handed its cleanup over and returned, and an event is emitted after that |
| `Hub.SubscriberHub.FanOut` | server/factory_console/file_adapter/watcher.py:47-52 | Every registered queue gets the event once, at its end, and the list does not change |
| `Hub.SubscriberHub.Register` | server/factory_console/file_adapter/watcher.py:54-57 | A fresh, empty queue joins the list at its end |
| `Hub.SubscriberHub.Unregister` | server/factory_console/file_adapter/watcher.py:54-62 | Exactly the one queue leaves the list, the others in order |
| `Sse.Delivery` | server/factory_console/services/events_service.py:131-154 | For any schedule of fan-outs, heartbeats and other clients: a client's change frames are a gapless, duplicate-free, ordered prefix of the events fanned out since its queue registered; as long as the queue is on the hub the rest is in its pending read and its queue, and it is there until the client's `finally`; the handshake comes first |
| `Sse.RemovedExactlyOnce` | server/factory_console/services/events_service.py:150-154 | Whether cancelling the pending read or `aclose()` ends the subscription: a queue is on the hub once, from registration until it is removed; nothing removes it before the client's `finally`, nothing twice; a closed client's was removed exactly if it had registered; `aclose()` never meets a running subscription |
| `Sse.CleanUpCompletes` | server/factory_console/services/events_service.py:150-154 | From every reachable state the `finally` of a client runs to its end and leaves the client off the hub |
| `Sse.HubFollows` | server/factory_console/file_adapter/watcher.py:44-62 | Every step of every client changes the queues of the hub as its own fan-out, registration and removal do, or takes one event from one queue, or leaves them |
| `Sse.StepKeeps` | server/factory_console/services/events_service.py:131-154 | Every step of every client and every fan-out keeps all of this for every client |
| `SseStream.StaysOpen` | server/factory_console/services/events_service.py:134-149 | As long as a client is not dropped and no heartbeat finds it gone or its watcher replaced, its stream is open and has not said `stale` |
| `SseStream.StaleExactly` | server/factory_console/services/events_service.py:145-147 | `stale` is among a client's frames if and only if a heartbeat found its watcher replaced; it is the last frame, said once, and the stream ends after it |
| `SseStream.EndsWhenGone` | server/factory_console/services/events_service.py:143-154 | A client that is dropped or found gone has ended, stays ended and gets no further frame |
| `SseStream.FramesInOrder` | server/factory_console/services/events_service.py:134-149 | The kinds of a client's frames are, one for one and in order, the handshake, the events its read woke it for and what its heartbeats found |
| `SseProgress.OwedEventArrives` | server/factory_console/services/events_service.py:131-142 | In every reachable state, a streaming client that has not been sent everything fanned out since it joined can be sent the next event by steps of its own, with no frame in between |
| `SseProgress.ReadJoins` | server/factory_console/file_adapter/watcher.py:54-62 | A client that asks for its first frame joins the hub as soon as its read runs, last in the list and with an empty queue |
| `SpendAggregate.Aggregate` | server/factory_console/domain/spend_calc.py:115-191 | The one pass over mutable buckets produces the report the sums define: full cost to each distinct id, the breakdown to its models, every cost to its level, one row per key, dearest first |
| `SpendAggregate.ChargeTickets` | server/factory_console/domain/spend_calc.py:153-162 | Each distinct id of an entry is charged once, however often it is named |
| `SpendAggregate.ChargedModelAdds` | server/factory_console/domain/spend_calc.py:164-167 | The contribution loop adds to each model what the entry spent on it |
| `SpendAggregate.DearestFirst` | server/factory_console/domain/spend_calc.py:253-265 | One row for each bucket, ordered by falling published cost, then by key |
| `Spend.CutIsUnique` | server/factory_console/domain/spend_calc.py:253-265 | That order leaves no freedom: a set of rows has one listing |
| `SpendLaws.ReportIsOrderFree` | server/factory_console/domain/spend_calc.py:115-127 | The report is the same for any order of the entries and of the keys in their breakdowns |
| `SpendLaws.LevelsAccountForTotal` | server/factory_console/domain/spend_calc.py:169-191 | Level entry counts sum to the total; level costs sum exactly to the total before rounding; published they differ from it by at most (levels + 1) / 2 units |
| `SpendRows.TotalsAre` | server/factory_console/domain/spend_calc.py:115-152 | The totals are every record's cost once, their number, and each of the five token figures added up |
| `SpendRows.TicketRowsAre` | server/factory_console/domain/spend_calc.py:153-162 | A ticket row is the whole cost and the number of the records that name the ticket, with the sorted models seen on them; every named ticket has one; dearest first, then by id |
| `SpendRows.LevelRowsAre` | server/factory_console/domain/spend_calc.py:169-191 | A level row is the cost and the number of the records of that level; every level has one |
| `SpendRows.ModelRowsAre` | server/factory_console/domain/spend_calc.py:164-167 | A model row is what was contributed under the model's name, in cost and in each token figure |
| `SpendRows.ContributionsAre` | server/factory_console/domain/spend_calc.py:211-250 | A record contributes its breakdown, each part with the sum of its four counts; without one, all of it under its own model; without either, nothing |
| `SpendRows.RoundedIs` | server/factory_console/domain/spend_calc.py:110-112 | A published cost is a whole number of hundred-millionths: the nearest to the exact sum, the even one of two |
| `Ledger.ReadLedger` | server/factory_console/file_adapter/ledger.py:241-308 | The line loop produces the entries, the first failures up to the cap and the count of the rest |
| `Ledger.EveryLineIsAccountedFor` | server/factory_console/file_adapter/ledger.py:259-308 | Entries, detailed skips and the omitted count add up to the number of lines; the details never exceed the cap and are full before anything is omitted |
| `Ledger.SkipNamesAFailure` | server/factory_console/file_adapter/ledger.py:283-300 | A detailed skip names a line that did not parse; it is `partial_line` exactly for the last line of an unterminated file |
| `Ledger.EarlierFailureIsDetailed` | server/factory_console/file_adapter/ledger.py:270-281 | Every failing line before a detailed one is detailed too |
| `Ledger.EntriesInLineOrder` | server/factory_console/file_adapter/ledger.py:283-300 | The entries are the lines that parse, in line order and nothing else: each stands at the place given by how many lines before it parse |
| `Ledger.SkipHasItsReason` | server/factory_console/file_adapter/ledger.py:283-300 | A detailed skip says `partial_line` for the unterminated last line, otherwise `not_json` or `invalid_entry` as its line was no document or no entry |
| `Ledger.LinesAreTheText` | server/factory_console/file_adapter/ledger.py:259-268 | The lines, put together with newlines, are the text, up to a final newline |
| `Ledger.OtherReads` | server/factory_console/file_adapter/ledger.py:230-258 | A file that is missing, unreadable or too large is one skip of no line, an empty one nothing; details stop at one thousand |
| `Projection.TicketProjection.constructor` | server/factory_console/file_adapter/projection.py:42-56 | The index built in place holds, for every id, the other tickets that name it, once each, in list order |
| `Projection.TicketProjection.DependentCount` | server/factory_console/file_adapter/projection.py:58-75 | The published count of an id is the number of other tickets that depend on it |
| `Projection.TicketProjection.DirectDependents` | server/factory_console/file_adapter/projection.py:89-117 | The neighbourhood's dependents are the tickets the index holds, as many as the published count |
| `Projection.DependentsAreNamedOnce` | server/factory_console/file_adapter/projection.py:89-117 | With unique ids a neighbourhood names each dependent once, and exactly the other tickets that name the id |
| `Projection.DependentsInListOrder` | server/factory_console/file_adapter/projection.py:42-56 | Dependents come in the order of the ticket list |
| `Projection.EdgesAgreeWithIndex` | server/factory_console/file_adapter/graph.py:53-61 | With unique ids: no edge twice, and (s, t) is an edge exactly when s is among t's dependents and t is a known ticket |
| `Projection.EdgesInListOrder` | server/factory_console/file_adapter/graph.py:53-61 | Edges come by ticket, those of one ticket in the order its dependencies are first named |
| `Projection.DependentCountsSumToEdges` | server/factory_console/file_adapter/projection.py:58-75 | The dependent counts over all tickets add up to the number of edges |

## Left out

* Symlinks, file modes, `fsync`, empty directories and `mkdir`: a disk is a map from resolved paths
  to files, and a replace is one atomic update of it. Paths the operating system refuses by
  themselves, too long or with a NUL in them.
* Concrete JSON, UTF-8 and datetime syntax, and what a floating-point sum loses before it is
  rounded.
* Markdown ticket bodies: whether the file is there and readable is modelled, its front matter
  and text are not. The exact condition of a delete assumes front matter that YAML parses or
  refuses with its own error; a date like `2024-13-45` raises a `ValueError` that is not mapped.
* Which error an unreadable entry gives: it is `MalformedManifest` throughout, where a truthy
  `depends_on` that cannot be iterated raises a `TypeError` that is not mapped.
* Diff previews, `changedFiles`, refusal prose, excerpts and log lines with their once-only
  latches; of a refusal the state and the reason are kept.
* `_Bucket` and `_Tokens` as shared mutable objects: a bucket is a value that the loops replace
  in their maps, so aliasing between buckets is not modelled. The loaded manifest object, which
  the renderers change in place, is a value too.
* The watcher's `start`, the classification of watchdog events, and late scheduling of
  directories; `stop` is terminal.
* The heartbeat-only stream of a server without a watcher, and the bytes of the frames.
* A run-state file that is readable but not JSON stays the mutable `unknown`, so it is outside
  the order of access failures in `RunStateGate.PermissionsAreMonotone`; the parse itself is
  modelled.
* Text that cannot be encoded: a lone surrogate from a `\ud800` escape makes `handle.write` raise
  `UnicodeEncodeError`, which is no `OSError`, so it leaves `apply_changes` without clean-up and
  the temporary file behind. Characters here are Unicode scalar values.
* `services/`, `api/`, the project switch, runs, search, rendering to HTML and the frontend:
  wiring around libraries that are not part of this model, or plain folds that would add only
  easy members.

- RoadmapLaws.EditTouchesOneItem: is stated for documents in which at most one item carries the id, because with several the edit and a later delete each take the first one they meet.
- RoadmapLaws.CreateAgreesWithParser: is stated for text and titles whose only line boundary is the newline, because the editor splits at newlines and the parser at every line boundary.
- Simulation.CreateSimulates: compares the fields named in its row; how the other published fields compare is PublishedDetails.DetailsCompare.
- Simulation.EditSimulates: compares the same fields.
- Simulation.DeleteSimulates: compares the same fields.
- RoadmapOutcomes.EditMovesItemOnDisk: is stated for one-line titles and at most one item of the ticket, for the reason RoadmapLaws.EditTouchesOneItem has; RoadmapLines.EditedLineIs is for any number.
- RoadmapMoves.MoveAgreesWithParser: is stated for text and titles whose only line boundary is the newline, like the other agreements with the parser.
- WatcherLaws.StopIsFinalUnlessFlushing: is about a watcher that is not started again.
