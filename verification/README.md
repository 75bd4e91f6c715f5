# Verified models of the platform's trickiest state

Five parts of the repository, modelled in Dafny 4.11 and proved:

1. **Event delivery** (`Events`, `Protocol*`, `Pipeline`). SQS hands records to containers at least once; each
   record is inserted under a unique event id, dispatched to a handler, moved through STARTED, IN_PROGRESS and
   COMPLETED or FAILED, then acked, returned for retry, or copied to the dead-letter queue. The model interleaves
   single awaits of any number of records, batches and containers, with duplicate delivery, crashes between any
   two awaits, and writes that land but report an error. `Pipeline.Consumer` is the code in its own order,
   running over that protocol: every execution of its methods extends a run and inherits what is proved of runs.
2. **The two-box env file and the integrations run over it** (`Text`, `Env*`, `Integrations*`): a
   line-oriented reader, writer and in-place setter that must keep what people wrote, and a run that decides,
   validates, writes and is expected to change nothing the second time.
3. **The comment linter** (`Comment*`): a line-by-line scanner with carried state, refined against an automaton
   that reads the whole text character by character, and both against a grammar of lines with strings and comments
   written out; the grouping of lines into blocks; and the baseline that keeps known violations silent.
4. **The frontmatter normaliser** (`Frontmatter*`): splitting, folding block scalars, escaping, reassembling.
5. **Tracking creation and teardown, and the order number** (`Tracking*`, `OrderNumber`): two uniqueness guards
   under concurrent calls, soft deletes by tag and by user interleaved with them, and the number customers type.

Code that updates state in place is a class or a loop, proved against a function of its inputs; the results are
lemmas about those functions, or about every run of the protocols. What each of those functions decides (which line,
character, value or answer counts) is stated once more without naming it, over texts, values or the actions of a run:
`ProtocolOutcomes`, `EnvShapes`, `IntegrationsDecisions`, `CommentStrings`, `CommentRules`, `FrontmatterShapes`,
`TrackingOutcomes`. Ports (SQS, MongoDB, MySQL, Users, handlers,
clocks, random draws) appear as parameters or as nondeterministic answers.

## Where the code and its description part

- A handler that fails transiently is reported to SQS for redelivery, and the plan
  (`docs/superpowers/plans/2026-08-03-events-pipeline-milestone.md:1187`) speaks of retrying. The redelivered
  record meets the unique index and is skipped, so its handler never runs again: `ProtocolSafety.RedeliveryNeverRuns`,
  and a run in which exactly this happens, for any event with a handler, in `ProtocolExample.RedeliveryIsSkipped`.
- `set_custom_value` loses one empty last line of the file it edits, and only that (`EnvFile.SetTextReads`). So
  setting a value twice is setting it once exactly when the file does not end in two empty lines:
  `EnvFile.SettingTwiceIsOnce`, and a file on which it is not in `TwoEmptyLinesAreLost`.
- A value set is not always the value read: a line after the CUSTOM box may have the last word. `EnvSetter.SetIsRead`
  says whose word it is, `SetIsReadBackExactly` when the value set is read, `ShadowedIsNotRead` gives a file where it
  is not.
- A second integrations run need not repeat the first. After any run that returned 0 it does exactly when the CUSTOM
  box is stable: by itself it decides as the whole file did, and the AUTO values come back as they were written
  (`IntegrationsRerun.RerunIsExact`, `SameSwitchesRepeat`, `IntegrationsFixpoint.QuietRerunIsExact`), which minted ones
  do unless the box contradicts them (`IntegrationsRerun.MintedRunRepeats`). Decisions made elsewhere are read once and
  lost, as on the file of `IntegrationsFixpoint.OutsideDecisionsAreLost`. The file created from nothing with both
  switches given is stable: `IntegrationsSkeleton.SkeletonDeclines`.
- A kept line of a legacy env file that looks like the closing marker breaks the round trip; without one it holds:
  `EnvWriter.BoxRoundTrips`, `EnvFile.WritingTwiceIsOnce`, and a file that loses a line in
  `EnvWriter.LegacyMarkerIsLost`.
- `ExistsByOrderID` looks at live rows, but the unique index on `order_id` covers deleted ones, so an order whose
  tracking was deleted is refused by the second guard for good, as it is after a write that landed though its caller
  was told of a failure: `TrackingSafety.SuccessIsExact`, and a run in `TrackingExamples.RecreationIsRefused`. The
  look at history beside it never changes the answer: `Trackings.PreCheckSeesLiveTrackings`.
- A minted id or tracking number that is already taken is reported as the order's tracking already existing. When,
  exactly, and for which calls of a run: `TrackingSafety.RefusedExactly`, `ClashedExactly`; a run that ends that way:
  `TrackingExamples.MintedIdIsTaken`.
- The ratchet is meant not to see comments move. But a file is skipped while a generated marker stands in its first
  eight lines, so an edit that pushes the marker further down makes the linter look at it for the first time, and all
  its violations are new. That this is the only way is `CommentMoves.MovedIsNewExactly` and `UnmaskedIsNewExactly`; when
  an edit does it, `UnmasksExactly`; a file on which eight empty lines do, `CommentGenerated.SkippedIsNotSilent`.
- Two comments of different files share a baseline key exactly when one path runs into the other's text across a
  separator, which takes a path with a colon: `CommentRatchet.KeyIsExact`, `KeysCollide`.

## Model

| member | source | states |
|---|---|---|
| ProtocolSafety.AtMostOnceDispatch | functions/events-pipeline/src/pipeline/process-record.ts:144-212 | in every reachable state of every interleaving, no two handler dispatches carry one event id |
| ProtocolSafety.OnlyTheInserterActs | functions/events-pipeline/src/pipeline/process-record.ts:144-212 | every transition and dispatch of an event is made by the one record whose own insert returned |
| ProtocolSafety.NoSilentLoss | functions/events-pipeline/src/handler.ts:306-329 | a published message is queued, redriven, documented, or was handed verbatim to quarantine; with a DLQ that accepts, a byte-identical copy is there |
| ProtocolSafety.DocumentsAreFaithful | functions/events-pipeline/src/pipeline/process-record.ts:113-163 | every stored document is its producer's envelope without the credential, with a legal history whose last entry is its status |
| ProtocolSafety.HandlersSeeTheUnredactedEnvelope | functions/events-pipeline/src/pipeline/process-record.ts:181-199 | a handler is given the envelope its producer published, only for an event already stored |
| ProtocolSafety.RunGrows | functions/events-pipeline/src/shared/db/events-repository.ts:108-158 | along any run histories only grow by appending, a final status is final, and the logs of dispatches, transitions and copies only grow |
| ProtocolSafety.RedeliveryNeverRuns | functions/events-pipeline/src/handler.ts:429-442 | once a document exists, only the record that inserted it can be dispatched, so a redelivery never runs a handler |
| ProtocolExample.RedeliveryIsSkipped | functions/events-pipeline/src/handler.ts:429-442 | for any event with a handler there is a run in which it fails transiently, the failure is stored and the id reported, and the record delivered again is skipped and acked, with one dispatch in all |
| ProtocolSafety.InsertAdmitsExactlyFreshEvents | functions/events-pipeline/src/shared/db/events-repository.ts:70-106 | an insert is let through iff no document has the event id, and answered with Duplicate iff one has |
| ProtocolSafety.InsertsAreIndexed | functions/events-pipeline/src/handler.ts:259-275 | the cold-start latch makes the unique index exist whenever a record is processed |
| ProtocolSafety.VerdictsAgreeWithDocuments | functions/events-pipeline/src/pipeline/process-record.ts:42-45 | ok means COMPLETED, persisted means FAILED with a reason, then and ever after; not persisted means this record never sent a transition |
| ProtocolSafety.BatchVerdicts | functions/events-pipeline/src/handler.ts:259-304 | the response is every id when bootstrap failed, else exactly the ids of the retried records, in order |
| ProtocolSafety.RunKeepsInvariant | functions/events-pipeline/src/pipeline/process-record.ts:106-213 | every reachable state keeps the protocol's invariant on records, documents, batches and logs |
| ProtocolOutcomes.EveryEndHasItsCause | functions/events-pipeline/src/pipeline/process-record.ts:131-212 | where a record stands says what happened to it earlier in the run: a success, that its handler returned; a stored failure, that its handler failed this transiently and with the stored reason, or that its type has no handler, the failure is permanent and the error says so; a failure not stored, how its insert failed |
| ProtocolOutcomes.HandlerFailureDecides | functions/events-pipeline/src/pipeline/process-record.ts:200-206 | once a handler failed, the record stays at that failure, or ends in a stored failure exactly as transient, unless an exception or a crash ends it |
| ProtocolOutcomes.HandlerReturnDecides | functions/events-pipeline/src/pipeline/process-record.ts:208-212 | once a handler returned, the record succeeds unless an exception or a crash ends it, and never ends in a failure |
| ProtocolOutcomes.InsertFailureDecides | functions/events-pipeline/src/pipeline/process-record.ts:139-163 | once an insert failed, the record ends in a failure that is not stored, transient exactly as the insert's, at once if transient and after quarantine if not |
| ProtocolOutcomes.ThrowDecides | functions/events-pipeline/src/handler.ts:389-461 | a transition that threw, or a rejected promise, is how its record ends, whatever comes later |
| ProtocolOutcomes.RetriedExactly | functions/events-pipeline/src/handler.ts:389-461 | a settled record is retried iff a transition of its threw, its promise was rejected, or its insert or its handler failed transiently |
| ProtocolOutcomes.ReportedExactly | functions/events-pipeline/src/handler.ts:259-304 | an id stands in the response iff some record of the batch with it may recover in that sense, and the queue then loses exactly the other delivered ids |
| ProtocolSystem.StepKeeps | functions/events-pipeline/src/handler.ts:259-461 | every single action of any record, batch or container keeps it |
| ProtocolSystem.FailuresExact | functions/events-pipeline/src/handler.ts:283-304 | an id is reported iff some record carrying it threw, was rejected or failed transiently |
| ProtocolSystem.AckedIsAccounted | functions/events-pipeline/src/handler.ts:389-461 | a record settled without a retry has a document or a quarantined copy |
| ProtocolInvariant.WorkerStep | functions/events-pipeline/src/pipeline/process-record.ts:106-213 | a move of one record that keeps its own promises keeps those of every other |
| ProtocolSteps.TransitionStored | functions/events-pipeline/src/shared/db/events-repository.ts:108-158 | a stored transition leaves a legal history that matches where its sender goes next |
| Events.TransitionKeepsConsistent | functions/events-pipeline/src/domain/event.ts:1-36 | appending a status that may follow keeps a document consistent with its history and its envelope |
| Events.RedactPayload | functions/events-pipeline/src/domain/redact-payload.ts:16-30 | the copy-then-delete loop computes the redacted payload |
| Pipeline.Consumer.ProcessRecord | functions/events-pipeline/src/pipeline/process-record.ts:106-213 | the lifecycle in its own order, whatever runs between its awaits: its result says what is stored for the event and whether this call wrote it, and follows from what the insert and the handler did, a handler's failure being returned as transient as it was thrown |
| Pipeline.Consumer.ProcessOneRecord | functions/events-pipeline/src/handler.ts:389-461 | retry iff the insert or the handler failed transiently or a transition threw; permanent failures that stored nothing are quarantined first |
| Pipeline.Consumer.ProcessRecordSafely | functions/events-pipeline/src/handler.ts:306-366 | an unparsable body is quarantined and acked; otherwise retry iff the insert or the handler failed transiently or something was thrown |
| Pipeline.Consumer.ProcessBatch | functions/events-pipeline/src/handler.ts:259-304 | all records when the index cannot be ensured, else exactly the retried ones in record order, for any completion order |
| Pipeline.Consumer.Quarantine | functions/events-pipeline/src/pipeline/quarantine.ts:43-104 | total: it records the unmodified body and never throws, landed or not |
| Pipeline.BatchItemFailures | functions/events-pipeline/src/handler.ts:283-304 | the loop over settled outcomes reports exactly the retried records |
| EnvFile.SettingIsExact | infra/scripts/lib3mrai/envfile.py:95-139 | on any file with a box: all other lines but one empty last one stay in order, the key's CUSTOM lines all read key=value and there is one iff the setter came to write it, parse reads whatever has the last word on the key and the old value of every other |
| EnvFile.SetTextReads | infra/scripts/lib3mrai/envfile.py:134-139 | the file read back is the lines set, except that exactly one empty last line is lost |
| EnvSetter.SetKeepsOthers | infra/scripts/lib3mrai/envfile.py:111-133 | every line outside CUSTOM and every CUSTOM line of another key stays, in order |
| EnvSetter.SetHolds | infra/scripts/lib3mrai/envfile.py:111-133 | every CUSTOM line of the key, active or commented, reads key=value afterwards |
| EnvSetter.SetCounts | infra/scripts/lib3mrai/envfile.py:111-133 | no line of the key is lost, at most one is added, and on a written box there is one |
| EnvSetter.ClosedIsWritten | infra/scripts/lib3mrai/envfile.py:111-133 | on a file whose boxes are closed the value is always written |
| EnvSetter.SetIsRead | infra/environments/preprod/scripts/preprod_integrations.py:47-58 | parse then reads exactly what has the last word on the key: the value set, what a later line outside CUSTOM assigns, or nothing |
| EnvSetter.SetIsReadBackExactly | infra/scripts/lib3mrai/envfile.py:95-139 | the value set is read back iff the setter has the last word, or the later line that has it says the same |
| EnvSetter.ShadowedIsNotRead | infra/scripts/lib3mrai/envfile.py:95-139 | a file on which the value is written and another one read |
| EnvFile.SettingTwiceIsOnce | infra/scripts/lib3mrai/envfile.py:95-139 | on file texts: setting a value twice is setting it once iff the file does not end in two empty lines |
| EnvFile.TwoEmptyLinesAreLost | infra/scripts/lib3mrai/envfile.py:134-139 | a file that a second setting of the same value changes |
| EnvSetter.SetKeepsOtherValues | infra/environments/preprod/scripts/preprod_integrations.py:47-58 | a setting changes what parse reads for no other key |
| EnvSetter.SetsCommute | infra/scripts/lib3mrai/envfile.py:95-139 | settings of distinct keys commute up to what parse reads |
| EnvWriter.BoxRoundTrips | infra/scripts/lib3mrai/envfile.py:43-79 | the block read from a written file is the old block and the missing defaults iff no owned line looks like the closing marker; with markers present none does |
| EnvWriter.LegacyMarkerIsLost | infra/scripts/lib3mrai/envfile.py:43-79 | a legacy file one of whose owned lines is lost because an earlier one looks like the closing marker |
| EnvWriter.SeededAppendsMissing | infra/scripts/lib3mrai/envfile.py:165-176 | seeding appends exactly the defaults whose key was absent, commented-out counting as present, in order |
| EnvWriter.AutoBoxIsGenerated | infra/scripts/lib3mrai/envfile.py:142-184 | the AUTO box of a written file is exactly what was generated |
| EnvFile.WritingTwiceIsOnce | infra/scripts/lib3mrai/envfile.py:142-184 | on file texts: writing the file again with the same arguments changes nothing iff no owned line looks like the closing marker |
| EnvFile.FileTextReads | infra/scripts/lib3mrai/envfile.py:178-184 | the text written splits back into the lines written |
| EnvFile.File.ReadCustomBlock | infra/scripts/lib3mrai/envfile.py:43-92 | the loops with their flags return the owned block of a marked, legacy or missing file |
| EnvFile.File.SetCustomValue | infra/scripts/lib3mrai/envfile.py:95-139 | a missing file or box is refused and leaves the file alone; otherwise the file becomes the text the results above are about |
| EnvFile.File.WriteEnvFile | infra/scripts/lib3mrai/envfile.py:142-184 | an empty generated value refuses before anything is written; otherwise header, AUTO box and seeded CUSTOM box |
| EnvFile.File.Parse | infra/environments/preprod/scripts/preprod_integrations.py:47-58 | the dictionary holds, for every key, its last active assignment and nothing else |
| EnvShapes.KeyLineExactly | infra/scripts/lib3mrai/envfile.py:132-133 | a line is a key's iff it is spaces, hashes, spaces, the key, spaces, an equals sign and anything |
| EnvShapes.ActiveExactly | infra/environments/preprod/scripts/preprod_integrations.py:47-58 | parse reads a key off a line iff the line is spaces, the key, spaces, an equals sign and the rest, and the value is the rest, trimmed and unquoted |
| EnvShapes.UnquoteExactly | infra/environments/preprod/scripts/preprod_integrations.py:41-44 | a value between two single or two double quotes loses them, and only such a value changes |
| EnvShapes.MarkersAreExact | infra/scripts/lib3mrai/envfile.py:12-15 | each of the four markers is known by how its line starts, whatever follows |
| EnvShapes.OnlyLineIsReplaced | infra/scripts/lib3mrai/envfile.py:111-139 | in a closed box with one line of the key, active or commented out, setting replaces that line and nothing else |
| EnvShapes.AbsentIsAdded | infra/scripts/lib3mrai/envfile.py:111-139 | in a closed box without one, the assignment is added just above the closing marker and nothing else changes |
| EnvShapes.SeedsExactly | infra/scripts/lib3mrai/envfile.py:165-176 | a default is added iff no owned line names its key, a commented one included |
| EnvShapes.CommentedIsReplaced | infra/scripts/lib3mrai/envfile.py:95-139 | `#A=1` is replaced when A is set, and `# A = 1` keeps the default of A from being added |
| EnvShapes.TrimmedExactly | infra/scripts/lib3mrai/envfile.py:82-88 | all blank lines at both ends are cut, and nothing else |
| EnvShapes.LegacyIsOutside | infra/scripts/lib3mrai/envfile.py:67-79 | of a file without CUSTOM markers, the owned lines are those around the AUTO box, trimmed, and none of those in it |
| EnvShapes.OwnedIsInside | infra/scripts/lib3mrai/envfile.py:54-65 | of a file with them, the owned lines are those of the box, trimmed, and none around it |
| EnvShapes.FileIsExact | infra/scripts/lib3mrai/envfile.py:175-184 | the file written starts with its header, holds each generated pair as key=value in its AUTO box and ends in the owned lines and their marker |
| Integrations.Workspace.Run | infra/environments/preprod/scripts/preprod_integrations.py:238-281 | the run, step by step over both files, ends in the files and exit code that the results below characterise, value by value and run after run |
| IntegrationsDecisions.ProblemsAreExact | infra/environments/preprod/scripts/preprod_integrations.py:91-107 | each problem is reported iff the values read call for it: a required key or the Geoapify key empty with its integration on, a key with `_live_` in it, a key that does not begin as a test key of its kind |
| IntegrationsDecisions.NoProblemExactly | infra/environments/preprod/scripts/preprod_integrations.py:91-107 | a file has no problem iff Stripe on has its three keys, Geoapify on has its key, and each of the four checked keys is empty or a test key without `_live_` |
| IntegrationsDecisions.RunAcceptsExactly | infra/environments/preprod/scripts/preprod_integrations.py:238-281 | a run returns 0 iff the text it settles on is acceptable in that sense and, with Stripe on, the CLI and every AUTO value are there, so never with a live key; then the tfvars are these, field by field, and otherwise both files are left as settled |
| IntegrationsDecisions.RunRaisesExactly | infra/environments/preprod/scripts/preprod_integrations.py:238-281 | a run that does not return 0 returns 1, unless a setting found no box or a value was minted empty, when it raises |
| IntegrationsDecisions.SettleIsExact | infra/environments/preprod/scripts/preprod_integrations.py:168-186 | what a run settles on, key by key: the switches, then the answers to what is still open, read back where the CUSTOM box has the last word, and every other key as before; and when it stops with a flag undecided |
| IntegrationsDecisions.NothingToSetInto | infra/scripts/lib3mrai/envfile.py:105-118 | without a box the text stays; the run raises as soon as it has something to set, and returns 1 where it would have to ask and may not |
| IntegrationsFixpoint.AcceptedRun | infra/environments/preprod/scripts/preprod_integrations.py:238-281 | a run that returns 0, prompted, switched off, regenerating or creating the file, passed the checks on the text it settled on and wrote that text's CUSTOM box, seeded, and its AUTO values |
| IntegrationsFixpoint.DecisionsComeFromCustom | infra/environments/preprod/scripts/preprod_integrations.py:238-281 | every decision read back from the file a run left is the one the CUSTOM box holds by itself, so one made outside is lost |
| IntegrationsFixpoint.AutoReads | infra/environments/preprod/scripts/preprod_integrations.py:217-227 | an AUTO value read back is the box's if it holds one, else what parsing makes of the one written |
| IntegrationsFixpoint.OutsideDecisionsAreLost | infra/environments/preprod/scripts/preprod_integrations.py:238-281 | a concrete file on which the first run returns 0 and the second 1 |
| IntegrationsFixpoint.QuietRerunIsExact | infra/environments/preprod/scripts/preprod_integrations.py:238-281 | after any run that returned 0, a quiet run changes neither file and returns 0 iff the CUSTOM box is stable |
| IntegrationsRerun.RerunIsExact | infra/environments/preprod/scripts/preprod_integrations.py:238-281 | the same for a second run that may prompt and switch off: iff the box is stable and its lines of each flag switched off already say so |
| IntegrationsRerun.SameSwitchesRepeat | infra/environments/preprod/scripts/preprod_integrations.py:238-281 | with no switch the first run did not have, prompting or not, a stable box is exactly what it takes; with the same arguments, running twice is running once |
| IntegrationsRerun.MintedRunRepeats | infra/environments/preprod/scripts/preprod_integrations.py:189-215 | after a run that minted its AUTO values, tokens as the code mints them, a later one repeats it iff the box decides alone and, with Stripe on, holds no other AUTO value |
| IntegrationsSkeleton.SkeletonDeclines | infra/environments/preprod/scripts/preprod_integrations.py:138-161 | with no file yet and both switches given, the first run returns 0 and no later one changes anything |
| Text.SplitJoin | infra/scripts/lib3mrai/envfile.py:134-139 | lines joined, closed and split again are the same lines |
| Text.SplitJoinOpen | infra/scripts/lib3mrai/envfile.py:134-139 | without the closing line break exactly one empty last line is lost |
| CommentScanner.LinesReadAsText | scripts/validate-comments.py:289-346 | threading the state from line to line finds, on every line, the comment pieces one pass over the characters of the whole text finds |
| CommentScanner.Scanner.ScanComment | scripts/validate-comments.py:289-346 | the cursor loop returns the body made of exactly the automaton's pieces and carries exactly its mode, never both in a block and in a string |
| CommentScanner.Scanner.IsCommentLine | scripts/validate-comments.py:445-472 | a line is marked iff the automaton finds comment text on it |
| CommentScanner.BlockReads | scripts/validate-comments.py:327-336 | searching for the closing delimiter skips what the automaton reads character by character, `/*/` not closing |
| CommentStrings.ReadingIsScanned | scripts/validate-comments.py:289-346 | read any line of code as plain characters, closed strings and closed comments with what it ends in, quotes, escapes and delimiters written out per language: the scanner finds just the comments of that reading, in order, and carries on just what it leaves open |
| CommentStrings.EveryLineReads | scripts/validate-comments.py:289-346 | every line has such a reading, so the result above is about every line |
| CommentStrings.CommentExactly | scripts/validate-comments.py:306-346 | a line that begins in code carries a comment iff its reading has one: whatever stands in a string is hidden |
| CommentStrings.QuotedAddressIsCode | scripts/validate-comments.py:337-340 | an address between single or double quotes is no comment in any of the languages; without the quotes it is |
| CommentStrings.BlockLineIsScanned | scripts/validate-comments.py:295-302 | a line that begins inside a block comment is comment up to the first closing delimiter and code from there, or comment throughout |
| CommentStrings.StringLineIsScanned | scripts/validate-comments.py:304-316 | a line that begins inside a backtick string of TypeScript or Go is hidden up to the next backtick, whatever it holds |
| CommentStrings.OneNote | scripts/validate-comments.py:341-346 | the body of one comment is its text without the spaces around it, and a line without comments has none |
| CommentStrings.ContinuedNote | scripts/validate-comments.py:297-302 | on a continuation line the stars in front go too |
| CommentStrings.OneMoreNote | scripts/validate-comments.py:341-346 | each further comment adds its trimmed text after one space, unless it is empty |
| CommentBlocks.ExtractBlocks | scripts/validate-comments.py:493-548 | the loop with its pending run returns the blocks and the count the results below are about |
| CommentBlocks.BlocksAreMaximalRuns | scripts/validate-comments.py:493-548 | blocks are ordered and disjoint, each a whole maximal run of comment lines less its blank end, with length, range and bodies agreeing, and every run not blank throughout makes one |
| CommentBlocks.LengthsSum | scripts/validate-comments.py:501-531 | for any language, block lengths add up to the comment lines iff no run ends on a blank line |
| CommentBlocks.LengthsCoverCommentLines | scripts/validate-comments.py:501-548 | for C-like text: iff the file does not end on a blank line inside a block comment |
| CommentBlocks.BlocksOfConcat | scripts/validate-comments.py:533-548 | the blocks of two texts put together at a gap are the first's and the second's, shifted |
| CommentChecks.LookupIsUnambiguous | scripts/validate-comments.py:792-799 | every message looks up the fingerprint of the comment it is about, since no two blocks share a line and line numbers print apart |
| CommentChecks.MessageIsExact | scripts/validate-comments.py:585-605 | a message determines its line number and its text |
| CommentChecks.StableIsText | scripts/validate-comments.py:865-867 | removing the line prefix gives back exactly the text, even one that looks like a prefix |
| CommentChecks.AnalyzeFile | scripts/validate-comments.py:742-822 | no report iff one of the first eight lines carries a generated marker; otherwise the report records every check of every block and the density by its language's thresholds, in order |
| CommentRules.GeneratedExactly | scripts/validate-comments.py:742-754 | a file is skipped iff one of its first eight lines has, after at most four characters, one of the four phrases in any letter case |
| CommentRules.DenseExactly | scripts/validate-comments.py:812-820 | a file is called too dense iff it is long enough and its comment lines pass the allowed share of its lines, with one message fingerprinted by all its comments |
| CommentChecks.FileReport.Record | scripts/validate-comments.py:792-799 | messages are appended and each is mapped to its fingerprint, a later one overwriting |
| CommentMoves.InsertionKeepsKeys | scripts/validate-comments.py:865-867 | comment-free lines put in at any gap keep the keys of all violations but density, in order |
| CommentMoves.PrependingKeepsKeys | scripts/validate-comments.py:865-867 | so do lines put in at the top |
| CommentMoves.MovedCommentsStaySilent | scripts/validate-comments.py:968-1029 | after a baseline is written, such edits to any number of files, each looked at or skipped as before, bring up no new violation but density |
| CommentMoves.MovedIsNewExactly | scripts/validate-comments.py:742-772 | for any such edits: a violation other than density is new iff its file carried the generated marker in its header before the edit and not after, and no violation of another file had its key |
| CommentMoves.UnmaskedIsNewExactly | scripts/validate-comments.py:742-772 | among paths without a colon the last clause drops: exactly the comment violations of the files so unmasked are new |
| CommentMoves.UnmasksExactly | scripts/validate-comments.py:742-754 | an edit unmasks its file iff the only marked lines of the header stand below the added ones and all are pushed past line eight |
| CommentGenerated.SkippedIsNotSilent | scripts/validate-comments.py:742-772 | a generated Go file on which eight empty lines at the top bring up its over-long comment as new |
| CommentRatchet.RerunIsSilent | scripts/validate-comments.py:973-1029 | a baseline written from a scan makes a rerun of that scan report nothing |
| CommentRatchet.NewIsExact | scripts/validate-comments.py:1011-1029 | a violation is reported iff the scan has it and the scan that wrote the baseline had none under its key |
| CommentRatchet.KeptIsEnough | scripts/validate-comments.py:959-968 | leaving out the files without a violation changes neither the baseline written nor what is new |
| CommentRatchet.KeyIsExact | scripts/validate-comments.py:865-867 | for any paths and texts: keys agree iff fingerprint, path and text do, or one path runs into the other's text across a separator |
| CommentRatchet.PlainPathsNeverStraddle | scripts/validate-comments.py:865-867 | paths without a colon never do, so among them a changed comment is never silenced |
| CommentRatchet.KeysCollide | scripts/validate-comments.py:865-867 | two files and two texts that share a key |
| CommentRules.BareSilencesExactly | scripts/validate-comments.py:1009-1018 | among plain paths an entry of an older baseline, a message alone, silences just the same text of that path without a fingerprint |
| CommentRatchet.Ratchet.Update | scripts/validate-comments.py:968-1004 | only a scan of the whole repository rewrites the baseline; any other is refused and leaves it |
| CommentRatchet.Ratchet.Compare | scripts/validate-comments.py:1006-1029 | exit 1 iff some violation is new, and exactly the new ones are listed |
| Frontmatter.PartsAreExact | scripts/normalize_agent_frontmatter.py:27-38 | frontmatter is found iff the text is delimiter, whole lines none of them the delimiter's, delimiter, body; and then those rebuild the text |
| FrontmatterFold.FoldBlockScalars | scripts/normalize_agent_frontmatter.py:41-75 | the nested loop over lines returns the folded frontmatter and the folded keys, and terminates |
| FrontmatterShapes.HeaderExactly | scripts/normalize_agent_frontmatter.py:22-22 | a line opens a block scalar iff it is a key, a colon, tabs, `>` or `|`, perhaps a sign, and tabs |
| FrontmatterShapes.NoHeaderIsLeft | scripts/normalize_agent_frontmatter.py:41-75 | no line of the folded frontmatter is one, of any key |
| FrontmatterShapes.GoesOnExactly | scripts/normalize_agent_frontmatter.py:60-62 | a scalar goes on over lines that start with a space or a tab and over blank ones |
| FrontmatterShapes.ItemsAreExact | scripts/normalize_agent_frontmatter.py:47-66 | the items are the one way to read the lines as lines on their own and scalars with all that goes on with them |
| FrontmatterShapes.FoldedKeysAreExact | scripts/normalize_agent_frontmatter.py:57-66 | the keys reported are those of the scalars, one each, in order |
| FrontmatterShapes.ContentPush | scripts/normalize_agent_frontmatter.py:59-63 | each line of a scalar that is not blank adds its trimmed text after one space |
| FrontmatterMeaning.LinesAreKept | scripts/normalize_agent_frontmatter.py:47-66 | the items are the input's lines in order, a line outside a scalar is written as it is, and a scalar takes in only lines that go on with it |
| FrontmatterMeaning.EscapeReads | scripts/normalize_agent_frontmatter.py:62-63 | a value reads back as it was before escaping (section 7.3.1 of YAML 1.2.2) |
| FrontmatterMeaning.QuotedReads | scripts/normalize_agent_frontmatter.py:62-65 | a folded line reads back as its key and value, opens no scalar and is no delimiter |
| FrontmatterMeaning.ContentIsTrimmed | scripts/normalize_agent_frontmatter.py:62 | the joined non-blank lines need no further trimming |
| FrontmatterMeaning.FoldKeepsMeaning | scripts/normalize_agent_frontmatter.py:41-75 | a reader sees the same fields, texts and lines before and after folding, with a last line break more exactly when the output lines did not end in an empty one |
| FrontmatterMeaning.FoldTwice | scripts/normalize_agent_frontmatter.py:41-75 | folding again folds nothing and changes nothing |
| FrontmatterMeaning.NormalizedSplits | scripts/normalize_agent_frontmatter.py:78-87 | a normalised file splits into the folded frontmatter and the untouched body |
| FrontmatterMeaning.NormalizeIsIdempotent | scripts/normalize_agent_frontmatter.py:78-87 | normalising is idempotent on every file, empty frontmatter and last-line scalars included |
| FrontmatterMeaning.NormalizeFile | scripts/normalize_agent_frontmatter.py:78-87 | a file without frontmatter is copied; otherwise the destination, which may be the source, holds the normalised text |
| TrackingSafety.OneTrackingPerOrder | services/tracking-go/internal/app/create_tracking.go:102-156 | however calls, teardowns and transitions interleave, no two rows, live or deleted, are for one order |
| TrackingSafety.AtMostOneSuccess | services/tracking-go/internal/app/create_tracking.go:102-156 | at most one call ever succeeds for an order |
| TrackingSafety.ExactlyOneSuccess | services/tracking-go/internal/app/create_tracking.go:102-156 | once one call for an order has been answered, whatever became of the others, one succeeded iff no row for the order stood there before and no write for it landed without its caller hearing of it |
| TrackingSafety.SuccessIsExact | services/tracking-go/internal/app/create_tracking.go:102-156 | in every state of every run: a call for the order has succeeded iff a row for it stands, live or deleted, none stood before, and no write for it landed unheard |
| TrackingSafety.UnheardExactly | services/tracking-go/internal/adapter/mysql/create_tracking.go:66-204 | over any run, the rows inserted by calls that ended in a fault are exactly those of writes that landed and whose answer was lost |
| TrackingSafety.FinishedCalls | services/tracking-go/internal/app/create_tracking.go:102-156 | in any state, success means a row with the caller's order and tags and its opening history; already-exists a row of that order, or, for a call that clashed, of its minted id or number; unknown user no row. What ends a call in each is the next result |
| TrackingOutcomes.OutcomeExactly | services/tracking-go/internal/app/create_tracking.go:102-156 | over any run, a call ended in an outcome iff some step of the run ends it so: unknown user, Users said not found; fault, Users or the pre-check did not answer, or the write failed or landed unheard; already exists, the pre-check saw a live tracking or an index refused the write; created, the write was let in and answered |
| TrackingOutcomes.UnknownUserExactly | services/tracking-go/internal/app/create_tracking.go:107-114 | a call ended with unknown user iff the run holds the answer that Users knows no such caller |
| TrackingOutcomes.RowIsItsCallers | services/tracking-go/internal/app/create_tracking.go:128-155 | every row a call created is for the user its own resolution found, under an id and number it minted, with the caller's order, sub and tags |
| TrackingOutcomes.LetInAdds | services/tracking-go/internal/adapter/mysql/create_tracking.go:66-204 | a write that is let in adds one PLACED row and one PLACED history entry with the same date, for that call, and changes no other |
| TrackingHistory.HistoryTells | services/tracking-go/internal/adapter/mysql/update_status.go:127-258 | over any run a tracking enters no status twice, and its status and date are those of its latest history entry, deleted or not |
| TrackingSafety.RefusedExactly | services/tracking-go/internal/adapter/mysql/create_tracking.go:66-204 | a write that reaches the database is refused iff its order, its minted id or its minted number stands in the table, and clashes iff only one of the last two does |
| TrackingSafety.ClashedExactly | services/tracking-go/internal/adapter/mysql/create_tracking.go:206-210 | over any run, the calls that clashed are exactly those one of whose writes found its order free and its minted id or number taken |
| TrackingExamples.MintedIdIsTaken | services/tracking-go/internal/adapter/mysql/create_tracking.go:120-160 | a run in which a call answers already-exists and no row is for its order |
| TrackingExamples.RecreationIsRefused | services/tracking-go/internal/adapter/mysql/create_tracking.go:45-58 | a run in which an order's only tracking was erased, the pre-check lets a second call through and the index refuses it |
| TrackingSafety.SweepLeavesNothingTagged | services/tracking-go/internal/app/e2e_cleanup.go:46-48 | after an unscoped sweep no live row and no live history carries the source tag or any run tag |
| TrackingSafety.OtherRunsSurvive | services/tracking-go/internal/app/e2e_cleanup.go:50-60 | rows created for another run outlive a run's sweep |
| TrackingSafety.OwnRunIsSwept | services/tracking-go/internal/app/create_tracking.go:128-137 | every E2E row is deleted by the unscoped sweep and by its own run's; a row created without the E2E verdict is touched by no sweep |
| TrackingSafety.DeletionsAreExact | services/tracking-go/internal/adapter/mysql/soft_delete.go:185-224 | over any run, a row added or live at the start ends deleted with a stamp iff some teardown gave it while it was live: a sweep, and the row carries the source tag and the run's tag if one is named, or an erasure, and the row is of the sub or the user |
| TrackingSafety.FirstStampStays | services/tracking-go/internal/adapter/mysql/soft_delete.go:42-47 | over any stretch of a run a deleted row keeps its first stamp |
| TrackingSafety.EmptyIdentityIsNobody | services/tracking-go/internal/adapter/mysql/create_tracking.go:96-100 | a row created without a sub holds NULL and is selected by nobody's sub |
| TrackingSafety.SweepTwice | services/tracking-go/internal/adapter/mysql/soft_delete.go:150-163 | a teardown run again deletes nothing |
| TrackingSafety.CountIsExact | services/tracking-go/internal/adapter/mysql/soft_delete.go:185-224 | the count a teardown reports is the number of rows that were live before it and are not after |
| Trackings.PreCheckSeesLiveTrackings | services/tracking-go/internal/adapter/mysql/create_tracking.go:45-58 | the pre-check over rows and history answers exactly whether a live tracking stands |
| Trackings.SoftDeleteKeeps | services/tracking-go/internal/adapter/mysql/soft_delete.go:185-224 | history is deleted exactly with its tracking and under the same stamp, for any selector |
| Trackings.InsertKeeps | services/tracking-go/internal/adapter/mysql/create_tracking.go:66-204 | an insert the unique indexes admit keeps uniqueness, gives the row its opening history, and changes no other row |
| Trackings.AdvanceKeeps | services/tracking-go/internal/adapter/mysql/update_status.go:127-258 | a transition of a live tracking keeps history and tracking together |
| Trackings.TagsAreDisciplined | services/tracking-go/internal/app/create_tracking.go:128-137 | a run tag never stands without the source tag |
| TrackingRuns.RunKeepsInv | services/tracking-go/internal/app/create_tracking.go:102-156 | every state of every interleaving keeps rows, history, creators and finished calls consistent |
| TrackingService.Service.Execute | services/tracking-go/internal/app/create_tracking.go:102-156 | resolve, pre-check and insert in this order with early returns, anything else running in between: some step of the run ends the call in its outcome, unknown user iff Users said so, and a success has its row, for the user found, with its opening history |
| TrackingService.Service.ExecuteScoped | services/tracking-go/internal/app/e2e_cleanup.go:46-60 | the sweep deletes what its tag selects and returns how many rows it deleted, leaving none to delete; one that failed deleted nothing, or landed all the same and left none |
| TrackingService.Service.DeleteByUser | services/tracking-go/internal/app/delete_by_user.go:61-90 | an empty identity writes nothing; a failed write evicts nothing, though it may have landed; after a landed one no live row of the user is left, and a failing cache changes nothing |
| OrderNumber.Normalize | services/orders/src/Orders.Domain/OrderNumber.cs:153-164 | the loop computes the normal form the results below are about |
| OrderNumber.NormalIsExact | services/orders/src/Orders.Domain/OrderNumber.cs:153-164 | two inputs normalise alike iff edits of separators and letter case lead from one to the other |
| OrderNumber.LookupIsExact | services/orders/src/Orders.Domain/OrderNumber.cs:153-164 | an input normalises to a stored number iff it spells it |
| OrderNumber.NormalIsIdempotent | services/orders/src/Orders.Domain/OrderNumber.cs:153-164 | normalising twice is normalising once |
| OrderNumber.FormatIsInvisible | services/orders/src/Orders.Domain/OrderNumber.cs:132-140 | displaying any value, of any width, never changes what it normalises to |
| OrderNumber.CanonicalReadsBack | services/orders/src/Orders.Domain/OrderNumber.cs:132-164 | a canonical number, and its displayed form, normalise to it |
| OrderNumber.FormatIsInjective | services/orders/src/Orders.Domain/OrderNumber.cs:132-140 | two canonical numbers are never displayed alike |
| OrderNumber.FormatIsExact | services/orders/src/Orders.Domain/OrderNumber.cs:132-140 | a canonical number is displayed as thirteen characters, a hyphen at index 6 and no other separator, and without it the display is the number |
| OrderNumber.SkippedExactly | services/orders/src/Orders.Domain/OrderNumber.cs:157-161 | a character in any place changes nothing iff it is a hyphen, a space or a tab; any other adds itself in upper case |
| OrderNumber.AlphabetIsExact | services/orders/src/Orders.Domain/OrderNumber.cs:20-25 | a character is in the alphabet iff it is a digit or an upper-case letter other than I, L, O and U |
| OrderNumber.New | services/orders/src/Orders.Domain/OrderNumber.cs:80-122 | every minted number is canonical, for any date prefix and any draws, each draw naming one character of the suffix |
| OrderNumber.SuffixIsBijective | services/orders/src/Orders.Domain/OrderNumber.cs:111-122 | every canonical suffix comes from exactly one sequence of draws |

## Left out

- Tracing, spans, metrics, counters and logging: no effect on control flow; `withPhaseSpan` is a rethrow.
- JSON and Zod parsing: an arbitrary function from a record's body to an optional envelope.
- Handlers, e-mail, WebSocket and cache clients: they return, or fail permanently or transiently, or panic.
- Liveness of delivery: a thrown transition can leave a document at STARTED or IN_PROGRESS, and nothing completes it.
- The `persist_failed` quarantine is modelled as the repository port allows it; with the repository of this
  service only a duplicate key is a permanent insert failure, so that branch is not taken in production.
- Timestamps of documents and of tracking rows beyond the one stamped by each write.
- File modes, `\r\n` translation and the encoding of files: files are sequences of characters with `\n` breaks.
- Interactive prompts and the Stripe CLI: their answers are inputs of the run; the JSON dump of the tfvars is a record.
- IntegrationsDecisions.SettleIsExact: the answers typed are taken to be single lines, as a prompt returns them.
- IntegrationsRerun.RerunIsExact: the answers typed and the values minted are taken to be single lines, as a prompt
  and the code that mints them return; a second run that regenerates is meant to differ and is not compared.
- Other comment languages (Python, HTML, YAML-like files): the block, report and baseline results hold for any
  marks, the automaton only for HCL, TypeScript, C# and Go.
- Which files a scan finds and the language of each: inputs of the scan. The letter case a generated marker is read
  without is an arbitrary function of characters.
- The content of the comment rules and of the fingerprint hash: arbitrary functions of a block. The demotion of
  narrative messages to warnings and the per-rule breakdown are not modelled.
- CommentRatchet.KeyIsExact: fingerprints are taken to hold no colon, as hexadecimal digests and the absent one of
  older baselines do.
- The digits `\d` matches beyond ASCII in a baseline message: messages carry ASCII line numbers.
- CommentRatchet.Ratchet.Compare: the count of fixed baseline entries, which is only printed, is not modelled.
- Density is compared over the reals; the linter rounds to floating point.
- FrontmatterMeaning.FoldKeepsMeaning: a reader of whole lines and of the two escapes the normaliser writes, not a
  full YAML parser; word characters are any class that does not hold the colon.
- The tables a run of creations and teardowns starts from: taken to satisfy the unique indexes, the foreign key and
  the rule that a run tag never stands without the source tag.
- Column widths, the order number and address columns, and rows written by other services.
- Trailing blanks and letter case in MySQL comparisons: two arbitrary key functions, one per collation, so that
  the erasure's exactness is that of the binary collation.
- The header and flag middleware that decides the E2E tags: its verdict is an input of the creation.
- The UTC date prefix of an order number: any six digits. Uppercasing: any idempotent map that fixes the alphabet
  and makes no separators.
- Terraform, Docker, the web application, load tests, dashboards, authorisers and webhook tokens.
