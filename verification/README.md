# Verified models of the stateful core

This project models eight components of the repository in Dafny and proves what each of them is for. Every file is one
module; `dafny verify dfyconfig.toml` checks all of them.

| component | modules | what is proved |
|---|---|---|
| durable event log | `Journal`, `Admission`, `Replication`, `Replicas`, `Ownership`, `Projection`, `DurableStream`, `StreamRemoval`, `EventStore` | exactly which events are committed, replicas converge under replay, a stream misses and repeats nothing, owners are stable, the tables stand for the log and the view is the fold of the projectors over it |
| patches | `Text`, `PatchParser`, `PatchRoundTrip`, `PatchGrammar`, `PatchApply`, `PatchCompare`, `PatchEdit` | exactly which texts parse and which updates apply, printing and parsing are inverse (exactly when), an update is one simultaneous edit at the strictest matches |
| background jobs | `BackgroundJobs`, `JobRuns`, `JobLaws` | what each call does to each job, completion and output do not depend on the order of settlements, bodies run one at a time in order and never block each other for good, cells resolve once |
| schema rendering | `SchemaRender`, `SchemaExact`, `SchemaSound`, `SchemaMisses`, `SchemaReferences` | rendering terminates, exactly which values belong to it, every valid value belongs to the rendered type, and for three unsupported shapes exactly when one does not |
| terminal sessions | `Pty` | the buffer is the newest output, replay and live output join without a gap |
| tool catalog | `Catalog` | the selection takes turns, fits the budget, leaves nothing that still fits |
| data boundary | `Boundary`, `BoundaryExact` | copying in is unfolding a graph, cycles are rejected, crossing twice changes nothing |
| OAuth attempts | `OAuth`, `OAuthLaws` | what each step does, a credential is stored at most once, and an attempt is complete exactly when it was stored |
| permissions | `Permission` | saved rules only allow, replies cascade to exactly the right requests, each settled once |

## How the source is modelled

- Code that changes state in place is imperative here: the event service, the terminal session, the copier with its
  set of ancestors and the permission service are classes whose methods change their fields; the loops of the patch
  parser, the applier, the catalog and the expiry sweep are loops. Each method is proved equal to a function, or to a
  relation between the old and the new state, about which the lemmas speak.
- A database transaction, a `SynchronizedRef.modify` and a permission reply are atomic steps. `DurableStream`,
  `JobRuns` and `OAuth` are state machines whose steps interleave freely, and their theorems hold in every state of
  every run. Deferreds are cells that are written once.
- The codec between stored and in-memory event data, projectors, commit hooks, wildcard matching, collation and the
  agents' rules are parameters: arbitrary functions, with the law that stored data decodes and encodes back to itself
  where replication needs it.
- Time is a parameter of the steps that read the clock, and may move in any direction.

## Where the code does less than its purpose

- **Patch end marker.** The marker is looked for by trimmed comparison in all lines (`patch.ts:28`), so a kept line
  that trims to it ends the document. `RoundTrip` says exactly when printing and parsing are inverse: no hunk but the
  last has such a line.
- **Final blank line.** `derive` drops one trailing empty line and adds one only if the last line is not empty
  (`patch.ts:74`, `patch.ts:78`). `DeriveReadsBack` says exactly when the written file has the edited lines.
- **Empty aggregate.** `replayAll` takes a batch for the aggregate with the empty ID as no batch at all
  (`EmptyAggregateIsSkipped`).
- **Removal.** A reader keeps its cursor when the aggregate is removed and restarts at sequence 0.
  `StreamAcrossRemovals` says what it delivers then, for every run; `RemovalLosesExactly` says when that is everything;
  `RemovalLosesAnEvent` is a run in which it is not.
- **Heredocs.** `stripHeredoc` takes leading blank lines of the wrapped text with it (`patch.ts:197`). `HeredocStrips`
  says exactly when stripping undoes wrapping: no line break in the text's leading white space.
- **Schema rendering.** Three shapes can be rendered too narrowly, each with its exact condition: unions of numbers with
  the names of non-finite numbers, under either keyword and with any siblings (`CollapseMisses`: the schema as a whole
  accepts such a name; `CollapseOnKeywords` and `CollapseIsSound` spell that out), properties without
  a type (`UntypedPropertiesMiss`: no constant and no enumeration either), and a schema for additional properties beside
  declared ones (`IndexMissesDeclared`: a declared property can hold a kind of value that the index type does not
  cover). `CollapseExamples`, `PropertiesExample` and `IndexExamples` have schemas of each shape.
- **Unresolved references.** `hasUnresolvedRef` stops at schemas it is already inside. `ReportsExactly` says what it
  reports; references that do not resolve are all found (`EveryReferenceResolves`), but recursion only if it can be
  reached without passing a schema twice (`RecursionReported`, `RecursionBackToTheStartIsMissed`).

## Model

| member | source | states |
|---|---|---|
| Admission.PublishExactly | packages/core/src/event.ts:239-365 | a local event is committed exactly when it has an aggregate, encodes, has an unused ID, and its projectors and hook succeed, whoever owns the aggregate; it becomes the log's next entry and the owner stays; otherwise it dies for the first of these reasons |
| Admission.ReceiveExactly | packages/core/src/event.ts:444-481 | a replayed event is committed, ignored or dies exactly as its log, its owner, its ID and its projectors say, in the order in which they are checked |
| Admission.BatchExactly | packages/core/src/event.ts:483-515 | a batch that mixes aggregates or skips a sequence is refused before any of it is replayed; any other is replayed event by event up to the first that dies |
| Admission.AdministrationExactly | packages/core/src/event.ts:517-535 | a removal takes one aggregate away and a claim sets one owner, and nothing else changes |
| Replication.PerformKeepsWellFormed | packages/core/src/event.ts:239-365 | no operation of the service leaves an aggregate without events or uses one event ID at two positions of the journal |
| Replication.ReplayHeld | packages/core/src/event.ts:265-293 | replaying an entry the replica has appends and projects nothing; at most it gives an unowned aggregate its owner |
| Replication.ReplayNext | packages/core/src/event.ts:294-352 | the next entry is appended and the view is what the projectors make of its decoded event, or nothing at all happens if a projector fails |
| Replication.ReplaySlice | packages/core/src/event.ts:510-512 | replaying a slice leaves the longer of the two prefixes of the source, or a shorter one if a projector fails, and touches no other aggregate |
| Replication.ReplicationConverges | packages/core/src/event.ts:444-515 | a batch that starts at or before the replica's next sequence leaves the longer prefix of the source, its repetition is a no-op, and one that died half-way is completed by a retry |
| Replication.ChunkedReplication | packages/core/src/event.ts:483-515 | a new replica fed the log in two batches cut anywhere ends with the source's log |
| Replication.EmptyAggregateIsSkipped | packages/core/src/event.ts:488-489 | batches for the empty aggregate ID are never replayed |
| Replicas.OwnLogIsSource | packages/core/src/event.ts:340-351 | the log of any service whose codec is lawful can be replayed into a replica that otherwise holds prefixes of that service's other logs |
| Replicas.ServiceReplicates | packages/core/src/event.ts:444-515 | whatever a service has done since it was empty, replaying a slice of any of its logs leaves the replica the longer prefix, and its other logs can follow |
| Ownership.OwnershipIsStable | packages/core/src/event.ts:277-296 | an owner appears only through a claim or the first owned replay of an unowned aggregate, and changes only through a claim or a removal |
| Ownership.FencedReplayChangesNothing | packages/core/src/event.ts:257-264 | a replay under another owner than the aggregate's never appends, and under strict ownership it fails |
| Ownership.CommittedMeansAdmitted | packages/core/src/event.ts:294-318 | what is committed came from an admitted owner, at the next sequence, under an unused ID |
| Ownership.LogsOnlyGrow | packages/core/src/event.ts:319-352 | every operation but the removal of an aggregate extends its log |
| Ownership.OwnersOutliveRuns | packages/core/src/event.ts:517-535 | over any run without claims and removals of an aggregate its log only grows and its owner stays |
| DurableStream.StreamIsExact | packages/core/src/event.ts:544-607 | under every interleaving of commits, coalesced wakes and reads, without a removal, the deliveries are a prefix of the events after the cursor, in order, once each; when nothing is under way they are all of them |
| DurableStream.StreamAcrossRemovals | packages/core/src/event.ts:517-607 | in every run, with any removals, the deliveries are what the reader held at the last one and then a prefix of the new log's events after the position it had reached; when nothing is under way they are all of those |
| DurableStream.RemovalLosesExactly | packages/core/src/event.ts:517-607 | once quiet after a removal, the new log's events have all been delivered exactly if the reader had not moved past its starting cursor or the new log has nothing beyond it |
| StreamRemoval.RemovalLosesAnEvent | packages/core/src/event.ts:517-607 | there is a run, quiet at its end, in which the only event of the restarted aggregate is never delivered |
| DurableStream.StreamDrains | packages/core/src/event.ts:588-607 | from any state of any run, also after removals, whatever happens without further commits and in whatever order is bounded in length, and where nothing more can happen every event after the reader's position has been delivered |
| DurableStream.QueryExactly | packages/core/src/event.ts:544-566 | a read fetches exactly the events after the cursor, or the stream dies because one of them does not decode |
| DurableStream.DeadStaysDead | packages/core/src/event.ts:588-607 | a stream that has died hands over what is queued and nothing more |
| DurableStream.NextKeepsInv | packages/core/src/event.ts:357-363 | whatever step is taken, what was handed over ends where the cursor stands, and a reader that lags behind has a wake pending or coming |
| EventStore.EventService.constructor | packages/core/src/event.ts:239-251 | an empty service stands for the empty journal and the given view |
| EventStore.EventService.RegisterProjector | packages/core/src/event.ts:618-623 | the projector runs last on every later event of its type, on what the earlier ones made; other types and everything stored are as before |
| EventStore.EventService.RunProjectors | packages/core/src/event.ts:323-326 | the projectors run in order and then the hook, or the view is left as it was |
| EventStore.EventService.InsertRow | packages/core/src/event.ts:327-351 | the two table writes extend the aggregate's log by one entry and give an unowned aggregate its owner |
| EventStore.EventService.AdoptOwner | packages/core/src/event.ts:277-284 | an exact replay changes nothing but a missing owner |
| EventStore.EventService.CommitDurableEvent | packages/core/src/event.ts:239-365 | one transaction over the tables and the view is one atomic commit of the journal; the history grows by exactly what was committed, with the projectors and the hook that ran, and the view stays its fold |
| EventStore.EventService.Publish | packages/core/src/event.ts:372-399 | a durable event is announced exactly when it was committed, with its sequence; a live one changes no journal and cannot have a hook |
| EventStore.EventService.ReplayOne | packages/core/src/event.ts:444-481 | a replay is one remote commit of the decoded event, recorded once if it was committed, and announced with that data if asked for |
| EventStore.EventService.ReplayEvents | packages/core/src/event.ts:510-512 | the replay loop commits, records and announces event by event and stops at the first that dies |
| EventStore.EventService.ReplayBatch | packages/core/src/event.ts:483-515 | a batch is checked as a whole before anything is replayed; what is recorded and announced is what was committed |
| EventStore.EventService.ReadAfter | packages/core/src/event.ts:544-566 | the rows read are the log's entries after the cursor, in sequence order |
| EventStore.EventService.RemoveAggregate | packages/core/src/event.ts:517-526 | removal takes exactly one aggregate out of the journal and leaves the view |
| EventStore.EventService.ClaimAggregate | packages/core/src/event.ts:528-535 | a claim changes the owner of an aggregate that has events and nothing else |
| Projection.ViewIsFold | packages/core/src/event.ts:319-352 | over any run with fixed projectors the view is the fold of the projectors and hooks over the committed events in commit order, and the events of an aggregate that is never removed are exactly its log, each once |
| Projection.PerformProjects | packages/core/src/event.ts:319-326 | an operation puts what it commits through the projectors once; ignored and failed ones leave the view alone |
| Projection.RegisteredRunsLast | packages/core/src/event.ts:618-623 | registering a projector adds it as the last step for its type and no other |
| EventStore.ViewIsProjection | packages/core/src/event.ts:319-352 | without removals, late projectors and hooks, the service's view is the fold of its projectors over the stored rows, in order, each once |
| EventStore.InsertExtends | packages/core/src/event.ts:327-351 | after the writes each aggregate still has exactly the sequences 0 to latest and a sequence row exactly when it has events |
| EventStore.DeleteRemoves | packages/core/src/event.ts:517-526 | deleting rows keeps the other aggregates' logs |
| EventStore.SelectAtIsIndexing | packages/core/src/event.ts:265-276 | the row found at a position matches an event exactly when the log has that entry there |
| EventStore.SelectIDIsUse | packages/core/src/event.ts:306-318 | an ID is found in the table exactly when some aggregate uses it |
| EventStore.PositionsAreUnique | packages/core/src/event.ts:327-351 | no two rows share an aggregate and a sequence |
| EventStore.RepresentedIsWellFormed | packages/core/src/event.ts:239-365 | the tables always stand for a well-formed journal |
| EventStore.LogAfter | packages/core/src/event.ts:544-566 | selecting rows above a cursor and ordering them gives the suffix of the log |
| PatchParser.ParseAdd | packages/core/src/patch.ts:88-97 | the loop reads the added lines as the grammar does and stops where it does |
| PatchParser.ParseChunk | packages/core/src/patch.ts:107-127 | the loop splits a chunk's lines into old and new ones as the grammar does |
| PatchParser.ParseUpdate | packages/core/src/patch.ts:99-130 | the loop reads the chunks of an update as the grammar does |
| PatchParser.ParseHunk | packages/core/src/patch.ts:34-66 | one hunk with its error cases, as the grammar says |
| PatchParser.ParseLines | packages/core/src/patch.ts:27-68 | the markers are found and the hunks before the end marker are read |
| PatchParser.Parse | packages/core/src/patch.ts:25-69 | the whole parser is the grammar applied to the stripped and split text |
| PatchRoundTrip.ParsePrint | packages/core/src/patch.ts:25-69 | parsing a printed document gives the meaning of what comes before the first line that reads as the end marker, and of its hunk |
| PatchRoundTrip.RoundTrip | packages/core/src/patch.ts:25-69 | parsing undoes printing exactly when no hunk but the last keeps a line that trims to the end marker |
| PatchRoundTrip.ParsePrintHunks | packages/core/src/patch.ts:25-130 | any list of hunks that a patch can express survives printing and parsing, with paths, moves, contexts, lines and end-of-file flags |
| PatchRoundTrip.Reprint | packages/core/src/patch.ts:25-130 | whatever the parser accepts can be printed and parses to the same hunks again |
| PatchRoundTrip.HeredocStrips | packages/core/src/patch.ts:196-197 | stripping a heredoc gives the wrapped text short of the line breaks in its leading white space, so it undoes wrapping exactly if there are none |
| PatchRoundTrip.HeredocRoundTrip | packages/core/src/patch.ts:26 | a wrapped patch parses to what the bare one does |
| PatchGrammar.AcceptsExactly | packages/core/src/patch.ts:25-130 | the parser accepts exactly the printed lines of documents between the markers, up to white space around names and markers, and gives the document's meaning |
| PatchGrammar.TextAccepted | packages/core/src/patch.ts:25-28 | a text is accepted exactly if that holds of it once it is trimmed and taken out of a heredoc |
| PatchGrammar.StripsOnlyHeredocs | packages/core/src/patch.ts:196-197 | whatever is taken off a text is the wrapping of a heredoc around its body |
| PatchGrammar.StripsHeredocs | packages/core/src/patch.ts:196-197 | every heredoc, with or without command, quotes and white space, is stripped to its body |
| PatchApply.LevelsLoosen | packages/core/src/patch.ts:183-193 | each comparison accepts what a stricter one accepts |
| PatchCompare.LevelsMean | packages/core/src/patch.ts:183-193 | the comparators accept the same line; one stem with white space behind it; one core with white space around it; cores that read the same once typographic characters are spelled out |
| PatchCompare.PlainLines | packages/core/src/patch.ts:186-193 | on lines without typographic characters the loosest comparator is the one before it |
| PatchCompare.Exchangeable | packages/core/src/patch.ts:187-193 | a typographic character and its ASCII spelling can be exchanged anywhere in a line |
| PatchCompare.SpaceExactly | packages/core/src/patch.ts:184-186 | white space is what the language standard lists |
| PatchApply.SeekIsStrictest | packages/core/src/patch.ts:160-172 | a match is found whenever there is one, and it is at the strictest level that has any: at the end of the file if that is asked for and matches, else the first |
| PatchApply.SeekLoop | packages/core/src/patch.ts:160-172 | the nested loops find that match |
| PatchApply.ComputeReplacements | packages/core/src/patch.ts:132-158 | the loop locates the chunks from the running line on and fails with the first that cannot be located |
| PatchApply.ChunksAreStrictest | packages/core/src/patch.ts:135-156 | every chunk is found at the strictest match of its lines, or of those without a trailing blank one, from its running line on, behind its context line found the same way |
| PatchApply.ReplacementsShape | packages/core/src/patch.ts:132-158 | one replacement a chunk, in bounds and pairwise disjoint; located ones keep chunk order and pure insertions follow in chunk order at the end |
| PatchApply.ApplyReplacements | packages/core/src/patch.ts:76-77 | splicing from right to left carries out all replacements at once: untouched segments interleaved with the new lines |
| PatchEdit.EditedExactly | packages/core/src/patch.ts:75-77 | an update puts the new lines of each replacement at its place, keeps every line between them, both moved by what earlier replacements add and take, and there is nothing else |
| PatchEdit.WrittenExactly | packages/core/src/patch.ts:78-85 | the edited lines are written, each ended by a line break unless the last is blank, with the byte order mark apart |
| PatchApply.Derive | packages/core/src/patch.ts:71-81 | an update is that edit of the file's lines, with the byte order mark kept apart, and reads back as the edited lines exactly if they can be read back at all |
| PatchCompare.UpdateFailsExactly | packages/core/src/patch.ts:132-173 | an update fails exactly when some chunk's context or old lines have no place, in that sense, from the running line on, and reports that one |
| PatchApply.TextReadsBack | packages/core/src/patch.ts:74-79 | the written text has the edited lines, short of a last blank one |
| PatchApply.EditedIsLines | packages/core/src/patch.ts:73-77 | the lines an update computes are single lines |
| PatchApply.DeriveReadsBack | packages/core/src/patch.ts:71-86 | the file an update writes has exactly the lines it computed if and only if the last is not blank and the first has no byte order mark of its own |
| PatchApply.ParsedUpdateReadsBack | packages/core/src/patch.ts:25-86 | that holds of every update of every patch that parses |
| Text.JoinSplit | packages/core/src/patch.ts:26 | joining the lines of a text gives the text |
| Text.SplitJoin | packages/core/src/patch.ts:79 | splitting joined lines gives the lines |
| JobRuns.LateSettlementChangesNothing | packages/core/src/background-job.ts:133-137 | in every run, a settlement under a token that is not the job's current one, or of a job that has ended, changes no job, finish, cell or promotion |
| JobRuns.EndedIsFinal | packages/core/src/background-job.ts:126-171 | a generation that has ended never changes again, whatever settles late and whatever replaces it |
| JobRuns.NextKept | packages/core/src/background-job.ts:126-358 | every transition and every effect between transitions keeps the registry, the runs and the cells in agreement |
| JobLaws.CancelExactly | packages/core/src/background-job.ts:337-358 | cancelling ends a running job, in the background or not, with the snapshot that it hands out; any other job is left alone |
| JobLaws.CancelLasts | packages/core/src/background-job.ts:337-358 | a cancelled generation stays cancelled, whatever its runs do and whatever is started under its name |
| JobLaws.StartExactly | packages/core/src/background-job.ts:202-254 | starting leaves a running job alone and otherwise begins a new generation with one waiting run |
| JobLaws.ExtendExactly | packages/core/src/background-job.ts:256-290 | extending is accepted exactly while the job runs, and the new run waits for the tail of the one before it |
| JobLaws.PromoteExactly | packages/core/src/background-job.ts:310-335 | a promotion is handed out, with the job's own hook, exactly when the job runs and is not yet in the background |
| JobLaws.SettleExactly | packages/core/src/background-job.ts:126-171 | a settlement counts only for the current running generation: a success counts down or completes it, a failure ends it at once |
| JobLaws.RunStepsExactly | packages/core/src/background-job.ts:173-290 | when a run begins, ends, is interrupted and resolves its tail, and that nothing else changes |
| JobLaws.EffectsExactly | packages/core/src/background-job.ts:292-335 | done gets the snapshot with which its generation ended; closing, waiting and answering do that and nothing else |
| JobLaws.WaiterIsServed | packages/core/src/background-job.ts:292-302 | whoever waits for a generation that has ended can be answered, with the snapshot with which it ended |
| JobRuns.CompletionIsExact | packages/core/src/background-job.ts:126-171 | a completed job had only successful runs, all settled, and its output is the text of the highest run with a non-empty result, whatever the order |
| JobRuns.FailureIsReported | packages/core/src/background-job.ts:146-162 | a job in error tells the message of a run that failed, not by interruption alone; a cancelled one was cancelled or tells that of a run that was only interrupted |
| JobRuns.SuccessCompletes | packages/core/src/background-job.ts:126-171 | a job whose runs all succeeded and that nobody cancelled has completed |
| JobRuns.BodiesAreSerial | packages/core/src/background-job.ts:202-290 | while a job runs at most one body executes, bodies begin in the order accepted, and pending is accepted minus settled runs and at least one |
| JobRuns.CellsResolveOnce | packages/core/src/background-job.ts:166-358 | a generation ends once, waiters all see that final snapshot, and promotion and its hook are handed out once |
| JobRuns.JobGoesOn | packages/core/src/background-job.ts:256-290 | a running generation never gets stuck: its earliest run that has not settled can begin, end however its body does, release its tail or settle |
| JobRuns.StepsAreBounded | packages/core/src/background-job.ts:173-190 | in every run of the system each accepted run takes at most four steps, so a generation that is not extended for ever ends after finitely many |
| JobRuns.CountSettle | packages/core/src/background-job.ts:138-145 | a settlement counts once and merges into the output the same way in any order |
| SchemaRender.FollowingShrinks | packages/codemode/src/tool-schema.ts:107-126 | following a reference uses up a definition name and introduces none, so rendering terminates on every document |
| SchemaRender.IntersectionHas | packages/codemode/src/tool-schema.ts:23-28 | dropping unknown members and unwrapping a single one does not change what belongs to an intersection |
| SchemaRender.UnionHas | packages/codemode/src/tool-schema.ts:129-157 | a union admits exactly what one of its members admits |
| SchemaExact.RenderedExactly | packages/codemode/src/tool-schema.ts:107-196 | for every schema, depth and set of names followed, exactly the values that its keywords let through, as the rendering reads them, belong to the rendered type |
| SchemaExact.SilentExactly | packages/codemode/src/tool-schema.ts:107-196 | a schema is rendered as unknown exactly when it is too deep, leads nowhere, has an unresolvable or silent part that decides it, or names no type |
| SchemaExact.PlainExactly | packages/codemode/src/tool-schema.ts:163-196 | a schema of types, constants, enumerations, items and properties within the depth limit is printed as exactly the values that satisfy those keywords |
| SchemaExact.NestedExactly | packages/codemode/src/tool-schema.ts:114-117 | a schema's own definitions come before the outer ones |
| SchemaSound.Over | packages/codemode/src/tool-schema.ts:107-196 | at every depth and with every set of names already followed, what a supported schema allows belongs to its rendering |
| SchemaSound.OverReference | packages/codemode/src/tool-schema.ts:118-126 | a reference with siblings, resolved, recursive or undefined, is rendered no narrower than it is |
| SchemaSound.OverAlternatives | packages/codemode/src/tool-schema.ts:129-157 | anyOf and oneOf, with both special cases, are rendered no narrower than they are |
| SchemaSound.OverAllOf | packages/codemode/src/tool-schema.ts:158-162 | allOf with siblings is rendered no narrower than it is |
| SchemaSound.OverObject | packages/codemode/src/tool-schema.ts:171-195 | required, optional and additional properties are rendered no narrower than they are |
| SchemaSound.DocumentAdmits | packages/codemode/src/tool-schema.ts:212-218 | the type printed for a document admits every value the document allows |
| SchemaMisses.CollapseMisses | packages/codemode/src/tool-schema.ts:129-140 | a union under either keyword, with any siblings, that is collapsed to number loses a valid value exactly when the schema as a whole accepts the name of a non-finite number that one of its alternatives gives |
| SchemaMisses.CollapseOnKeywords | packages/codemode/src/tool-schema.ts:129-140 | with one union keyword, no allOf and alternatives without references and combinators, a name is lost exactly when the types beside the union take strings and some alternative takes its own name, under oneOf without a twin |
| SchemaMisses.CollapseIsSound | packages/codemode/src/tool-schema.ts:129-140 | a union with nothing beside it loses a valid value exactly when one of the alternatives that name a non-finite number accepts that name |
| SchemaMisses.SentinelAccepts | packages/codemode/src/tool-schema.ts:17-21 | without references and combinators such an alternative accepts its name exactly when no constant says otherwise |
| SchemaMisses.UntypedPropertiesMiss | packages/codemode/src/tool-schema.ts:127-195 | listed properties without references and combinators, otherwise supported, are rendered too narrowly exactly when there is no type, no constant and no enumeration |
| SchemaMisses.IndexMissesDeclared | packages/codemode/src/tool-schema.ts:174-184 | bare declared properties beside a bare additional schema are rendered too narrowly exactly when one of them can hold a kind of value that the index type does not cover, and the required ones can be there |
| SchemaMisses.BareHas | packages/codemode/src/tool-schema.ts:163-172 | which kinds of values belong to the rendering of each type keyword |
| SchemaMisses.CollapseExamples | packages/codemode/src/tool-schema.ts:129-140 | number beside NaN loses a value under anyOf and under oneOf, and loses none where the type beside them is number |
| SchemaMisses.PropertiesExample | packages/codemode/src/tool-schema.ts:171-195 | properties alone lose a value |
| SchemaMisses.IndexExamples | packages/codemode/src/tool-schema.ts:174-184 | a declared number beside additional strings is lost, a declared string is not |
| SchemaReferences.EveryReferenceResolves | packages/codemode/src/tool-schema.ts:43-65 | when the check finds nothing, every reference reachable through any number of definitions is defined |
| SchemaReferences.ReportsExactly | packages/codemode/src/tool-schema.ts:43-65 | the check reports a schema exactly if some way through subschemas and references that passes no schema twice ends at a reference that is foreign, undefined or already followed |
| SchemaReferences.RecursionReported | packages/codemode/src/tool-schema.ts:49-56 | where all references are defined, a report means recursion that can be reached without passing a schema twice, and the other way round |
| SchemaReferences.RecursionBackToTheStartIsMissed | packages/codemode/src/tool-schema.ts:49 | a document whose only recursion leads back to the schema the check started from, and is not reported |
| Pty.Point | packages/core/src/pty.ts:318-331 | a subscriber sees output from the wanted cursor or the oldest retained position, whichever is later, and from the end if it asks for the end or beyond |
| Pty.WindowGrows | packages/core/src/pty.ts:242-246 | appending and trimming keeps the newest output up to the limit, addressed by its absolute start |
| Pty.Session.constructor | packages/core/src/pty.ts:215-226 | a new session is empty, running and valid |
| Pty.Session.Broadcast | packages/core/src/pty.ts:231-241 | every registered subscriber gets the chunk, as pending or live; one whose callback throws is taken out |
| Pty.Session.Append | packages/core/src/pty.ts:242-246 | the buffer is the exact newest output |
| Pty.Session.OnData | packages/core/src/pty.ts:229-247 | a chunk reaches everyone once and the window follows |
| Pty.Session.NotifyEnd | packages/core/src/pty.ts:96-109 | everyone registered is told the end now or on activation, whether or not the callback throws, and is released |
| Pty.Session.OnExit | packages/core/src/pty.ts:248-274 | only the first exit counts, and one while stopping is recorded without notice |
| Pty.Session.ReplayFrom | packages/core/src/pty.ts:318-331 | the replay is the output from the subscriber's point |
| Pty.Session.Attach | packages/core/src/pty.ts:304-333 | an attachment replays the output from its point to now and receives what follows; an exited session refuses unless allowed |
| Pty.Session.Activate | packages/core/src/pty.ts:338-348 | what waited is handed over in order, then the end if it is known; a throwing callback of either kind takes the subscriber out; a second activation does nothing |
| Pty.Session.Detach | packages/core/src/pty.ts:349-354 | a detached subscriber receives nothing more |
| Pty.ActivatedCases | packages/core/src/pty.ts:338-348 | what an activation hands over in each case, also to whoever attached after the exit |
| Pty.SeesEverything | packages/core/src/pty.ts:229-348 | replay and deliveries together are the whole output from the subscriber's point to now |
| Pty.SeesTheEnd | packages/core/src/pty.ts:96-109 | whoever attached while the process ran and stayed sees all output up to the exit and then its end notice, once |
| Pty.SeesPrefix | packages/core/src/pty.ts:236-240 | whoever detached or failed saw output without a gap; nobody gets two end notices |
| Catalog.Cost | packages/codemode/src/tool-runtime.ts:22 | the estimate is the nearest quarter of the line's length, halves rounded up |
| Catalog.Sort | packages/codemode/src/tool-runtime.ts:520-523 | each queue is a sorted permutation of its namespace's tools |
| Catalog.SortExactly | packages/codemode/src/tool-runtime.ts:520-523 | the cheaper tools come first, and those that cost the same by their paths |
| Catalog.Turn | packages/codemode/src/tool-runtime.ts:529-537 | one namespace's turn keeps the state of the selection |
| Catalog.Round | packages/codemode/src/tool-runtime.ts:527-539 | after a round every namespace still active has taken as many tools as rounds have passed |
| Catalog.Select | packages/codemode/src/tool-runtime.ts:517-539 | the loops end, take a prefix of each sorted queue within the budget, and take turns |
| Catalog.TurnsAreDetermined | packages/codemode/src/tool-runtime.ts:525-539 | only one selection takes turns, so the rule says exactly what is shown |
| Catalog.NothingElseFits | packages/codemode/src/tool-runtime.ts:532 | no tool left out would still fit |
| Catalog.CompleteIffAffordable | packages/codemode/src/tool-runtime.ts:543-544 | everything is shown exactly when everything together is within the budget |
| Catalog.SelectionIsGreedy | packages/codemode/src/tool-runtime.ts:517-539 | a tool left out does not fit the rest of the budget and does not sort before one that is shown |
| Boundary.Copier.CopyBounded | packages/codemode/src/tool-runtime.ts:174-295 | the walk over one shared ancestor set gives the copy or the first fault, and restores the set on success |
| Boundary.CopyInIsUnfolding | packages/codemode/src/tool-runtime.ts:171-295 | copying in succeeds exactly when the graph unfolds to legal data of at most 33 levels and gives that unfolding, shared parts included |
| BoundaryExact.CopyInExactly | packages/codemode/src/tool-runtime.ts:171-295 | copying in gives exactly the data that a value is, of at most 33 levels: each kind of leaf as itself or its JSON form, arrays and plain objects part by part, nothing else |
| BoundaryExact.FaultExactly | packages/codemode/src/tool-runtime.ts:181-293 | why a value is turned away, and that it is the first of its parts that decides |
| Boundary.UnfoldCopies | packages/codemode/src/tool-runtime.ts:269-293 | the ancestor set rejects nothing that unfolds |
| Boundary.CyclesAreRejected | packages/codemode/src/tool-runtime.ts:269-271 | a value on a cycle or leading into one is always rejected |
| Boundary.OutIsJson | packages/codemode/src/tool-runtime.ts:297-314 | what goes out is the same tree with null for every number that is not finite and, if asked, every undefined; data that has none is unchanged, and only that |
| Boundary.CrossingTwice | packages/codemode/src/tool-runtime.ts:171-314 | data that crossed in and out crosses again unchanged, from any object graph that holds it |
| OAuth.Scrub | packages/core/src/integration.ts:383-397 | the sweep expires exactly the overdue attempts that are not settling, forgets old outcomes, and hands out the scopes of those it expired |
| OAuth.Kept | packages/core/src/integration.ts:325-564 | every step keeps the attempts map, the fibers and the scopes in agreement |
| OAuthLaws.BeginExactly | packages/core/src/integration.ts:463-476 | a new attempt waits ten minutes, and only the automatic mode counts as completing |
| OAuthLaws.TakeExactly | packages/core/src/integration.ts:332-338 | the automatic callback's exit takes its attempt exactly if that is pending and not settling; that of a completion finds it settling |
| OAuthLaws.ClaimExactly | packages/core/src/integration.ts:524-530 | a claim succeeds exactly for a pending attempt that is not completing, with a code if the mode asks for one |
| OAuthLaws.ClaimSays | packages/core/src/integration.ts:531-536 | what the caller of a completion is told |
| OAuthLaws.CancelExactly | packages/core/src/integration.ts:554-563 | a cancellation takes effect exactly on a pending attempt that is not settling |
| OAuthLaws.FinishExactly | packages/core/src/integration.ts:357-371 | a settlement ends its attempt as complete or failed by its outcome, for a minute |
| OAuthLaws.FiberStepsExactly | packages/core/src/integration.ts:339-356 | the other steps of an attempt's fiber, and the one closing of its scope |
| OAuthLaws.SweepExactly | packages/core/src/integration.ts:383-399 | a sweep expires what is overdue and not settling, forgets what is over for a minute, and leaves the rest |
| OAuthLaws.TakenEnds | packages/core/src/integration.ts:332-377 | an attempt taken after a successful callback ends complete or failed as the store call returned, whatever else happens meanwhile |
| OAuthLaws.AutomaticCompletes | packages/core/src/integration.ts:484-488 | an automatic attempt whose callback succeeds in time and whose credential is stored completes |
| OAuth.StoredAtMostOnce | packages/core/src/integration.ts:340-356 | however callbacks, completions, cancellations and expiry interleave, the credential is stored at most once an attempt |
| OAuth.CompleteIffStored | packages/core/src/integration.ts:339-371 | an attempt is complete exactly when the call that stores its credential returned success and it is not settling any more |
| OAuth.SettlingIsNotOvertaken | packages/core/src/integration.ts:332-338 | while an attempt settles, only its own settlement changes it |
| OAuth.SettledEndings | packages/core/src/integration.ts:383-399 | an attempt that was ever settling ends complete or failed, never expired or cancelled |
| OAuth.ScopeClosedOnce | packages/core/src/integration.ts:316-317 | an attempt's scope is closed once, after it stopped being pending |
| OAuth.SettlingGoesOn | packages/core/src/integration.ts:524-553 | a settling attempt always has a step to take, and the settlement that owns it is let in |
| OAuth.ExpiresOnlyOverdue | packages/core/src/integration.ts:385-393 | an attempt expires only in a sweep, at the earliest ten minutes after it began |
| OAuth.OutcomeIsKept | packages/core/src/integration.ts:357-369 | an outcome is forgotten only in a sweep, at the earliest a minute after the attempt ended |
| Permission.LastMatchDecides | packages/core/src/permission.ts:76-86 | the deciding rule has its action and its resource pattern matched and none after it does, or nothing matches and the answer is to ask |
| Permission.JudgeExactly | packages/core/src/permission.ts:147-162 | a request is denied exactly when a configured rule that decides denies a resource, allowed exactly when each is saved or allowed, and asked about otherwise |
| Permission.SavedOverlay | packages/core/src/permission.ts:155-162 | a matching saved rule allows; otherwise the configured rules decide |
| Permission.DeniedByConfiguration | packages/core/src/permission.ts:147-162 | a request is denied exactly when the configured rules deny one of its resources |
| Permission.SavingOnlyAllows | packages/core/src/permission.ts:155-162 | saving more can only turn a question into permission |
| Permission.Permissions.Create | packages/core/src/permission.ts:176-188 | a request waits exactly when its ID is free and it could be announced |
| Permission.Permissions.Query | packages/core/src/permission.ts:190-195 | only a request whose judgement is to ask waits |
| Permission.Permissions.Abandon | packages/core/src/permission.ts:208-214 | the waiting request with that ID is gone, unanswered, and exactly the others wait on |
| Permission.Permissions.Cascade | packages/core/src/permission.ts:237-246 | every waiting request that is hit is answered in order, the others wait on |
| Permission.Permissions.Answer | packages/core/src/permission.ts:220-286 | after a rejection exactly the requests of other sessions wait; after an approval that is saved, exactly those that still would not be allowed or whose rules cannot be resolved; each that was answered got its reply and its settlement |
| Permission.LeavesOthers | packages/core/src/permission.ts:236-283 | which of the waiting requests each cascade leaves, in terms of their sessions and of what the rules now say |
| Permission.UnresolvableWaits | packages/core/src/permission.ts:264-267 | a request whose rules cannot be resolved is never answered by another's approval |
| Permission.SettledOnce | packages/core/src/permission.ts:220-286 | every request is settled at most once, with one published reply, and never while it waits |

## Left out

- Event log: SQL and the codec's internals, listeners and live streams (`notify` is one announcement), locations and metadata of events, `beforeAggregateRead`, and the order in which several subscribers are woken.
- Ownership.FencedReplayChangesNothing: speaks of owners with non-empty IDs; the code tests truthiness, so an empty one fences nobody, and the model does the same.
- DurableStream.StreamIsExact: speaks of runs without a removal of the aggregate being read; with removals the stream promises less, which DurableStream.StreamAcrossRemovals states.
- Patches: the regular expression of `stripHeredoc` is modelled by its longest-match reading, and characters are Dafny characters, not UTF-16 units.
- Background jobs: titles and other metadata, timeouts of waiting (which answer with the current snapshot), `waitForPromotion`, listing, and the closing of the owner's scope.
- Schema rendering: the printed text of types, indentation, comments, keys and literals; the syntax of `$ref` (a reference is a name or foreign) and the empty `$ref`; keywords that rendering ignores, except that validity must not allow more than the keywords modelled.
- SchemaSound.DocumentAdmits: one definitions map throughout, properties only beside an explicit type, no additional-properties schema beside declared properties, and no collapsed number names; what rendering does with the last three is in `SchemaMisses`.
- SchemaMisses.IndexMissesDeclared: declared and additional subschemas are a type keyword, the declared ones perhaps with an enumeration; for arbitrary subschemas the condition would be a question about two sets of values.
- SchemaMisses.UntypedPropertiesMiss: beside `anyOf`, `oneOf` or `allOf` the answer depends on which values those leave.
- Terminal sessions: spawning, writing and resizing, the registry's teardown and eviction of exited sessions, and callbacks that reenter the session.
- Pty.Session.Attach: models cursors as integers; a fractional cursor counts as none, as in the code.
- Catalog: grouping tools by the first segment of their path, the order of the namespaces, catalog text, and search.
- Boundary: the mode that keeps sandbox values, holes in arrays, tool references, and getters that run code; dates and URLs are given by their JSON form.
- OAuth attempts: the interruption between claiming an attempt and entering its protected block, the closing of the owner's scope, registries of methods, refreshing tokens, and the events published after completion.
- OAuth.StoredAtMostOnce: counts calls of the credential store; a call that times out counts as failed even if the store finishes it later.
- Permissions: resolving agents and sessions (a parameter), the internals of wildcard matching, metadata, and the shutdown that declines what still waits.
- Permission.Permissions.Answer: takes a reply as one step; the code yields between the requests of a cascade.
