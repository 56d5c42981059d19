# Operations plane: a verified model

The repository runs an operations plane: an agent that edits configuration files in place and applies such edits as
transactions, a scan that decides whether caught errors reach error telemetry, a telemetry client with two spools, and
a few small algorithms on wire data. This project models the parts whose correctness is decided by their code, and proves
what they are for.

- **Error-telemetry scan** (`FlowSyntax`, `FlowAnalysis`, `FlowSemantics`, `FlowSoundness`, `FlowTheorems`,
  `FlowHandOffs`, `FlowReach`, `FlowCompleteness`, `FlowVerdict`). `FlowAnalysis` is the scan's abstract interpreter over a mini-AST. `FlowSemantics` is an independent
  big-step semantics with completion records (section 14.15.3 of ECMA-262 for `try`), driven by an oracle that decides every branch, value and exception. A
  deferred error counts as handed off only when the run ends with the direct return that hands it off, or with what was
  thrown while evaluating that return. The theorem: when a boundary is accepted, every run that ends leaves the original
  error captured, handed off, or rethrown, unless the boundary's finalizer throws the return away. And the other way round:
  on programs whose text shows where the error is held, every state, completion and early effect that the scan reports is
  that of some run, so that a boundary is rejected only when one of its runs shows why.
  `Fixpoints` holds the scan's two fixpoint computations.
- **Environment files** (`EnvText`, `EnvEdits`, `EnvRoundTrip`, `EnvGrammar`, `EnvEditor`, `EnvSplice`, `EnvFile`,
  `EnvRepeats`). The statement scanner, the value parser, the escaper and the splicing serializer, with the loops proved
  against a recursive specification, the grammar of the statements that this specification accepts and what each of them
  means, and the theorem that says exactly when an edited file reads back as wanted.
- **Apply transaction** (`SourceWriter`, `Snapshots`, `ApplyMachine`, `ApplyPlan`, `ApplyTrace`, `ApplyRun`, `ApplyOnce`). Every dependency
  may succeed, fail without effect or fail after it took effect, and sources that no held lock protects may change at any
  await. A fingerprint is taken to be injective. The environment logs every call with its answer, and a run's calls are
  stated exactly: the steps of its part that was tried up to the first one that failed, then those that undo it.
- **Locks, validation and recovery** (`Locks`, `TextOrder`, `Validation`, `ValidatedChanges`, `Recovery`,
  `JournalDecoder`). Interleaved runs as a state machine with first-come-first-served locks; the checks of a change request,
  and what the writes can rely on once they pass; crash recovery over an abstract journal, where every step may end in a
  crash.
- **Telemetry client** (`ExceptionCapture`, `SpoolRecords`, `SpoolRows`, `ServerSpool`, `BrowserSpool`, `Ulid`).
- **Small algorithms** (`JsonValue`, `Framing`, `Precedence`).

`dafny verify dfyconfig.toml` checks all of it.

## Findings

Places where the code does less than its surroundings suggest. Each is part of the model, with a lemma or a clause that
shows it.

- A finalizer that ends abruptly discards the return that hands a deferred error off, and the scan, which has marked the
  state as owned at the return (`scripts/error-telemetry/coverage.ts:2976-2982`), accepts the finalizer's own throw
  (2560-2587). `FlowHandOffs.DiscardedHandOffDeceives` has the program; `FlowTheorems.EvidenceUnlessDiscarded` says for
  every accepted boundary that such a discard is the only way to lose the error, and `FlowHandOffs.FinalizerDecides` which
  finalizers do so.
- The scan unrolls a loop once. A body that reassigns the caught error's name on a path that only a second round reaches is
  accepted wrongly (`FlowTheorems.LoopReassignmentDeceives`). The soundness theorem therefore asks that loop bodies write
  no name that it follows; that is what `Regular` says.
- A handler that catches the rethrown error under its own name captures it in every run, and the scan rejects the boundary
  (`FlowVerdict.RethrownIsMissed`), since it takes the handler's parameter for something else. That is why the exactness
  theorem asks that no handler catches the error itself.
- A constant copied from the error in a for-initializer stays an alias behind the loop (`FlowTheorems.ForInitializerCopyDeceives`).
- Replacing an unquoted value that is followed by an inline comment makes the new value abut the `#`
  (`apps/config-agent/src/adapters/types.ts:241-268`): `EnvRoundTrip.StatementSet` gives the exact condition.
- An unquoted value may contain a quote that hides a line break, which an edit then exposes (`EnvFile.OpenQuoteBreaks`).
  `EnvEditor.BrokenReads` says when such an edit reads back; a new value that is written without quotes never does.
- Of two operations on one definition the serializer does not make the later one. `EnvRepeats.RepeatedExactly` has it exactly:
  the one that is spliced first leaves no trace if and only if its bytes are as long as what they replace, or shorter with
  nothing behind the place of the other; otherwise the text is corrupted, as in `EnvFile.SameDefinitionTwice`. Validation
  admits such a change if and only if two editable catalog entries stand for one variable of a source
  (`ValidatedChanges.TwiceAdmitted`), which the catalog's schema allows.
- A rejected run clears the active mark of the run that is still going (`apps/config-agent/src/changes/applyCoordinator.ts:393`);
  mutual exclusion rests on the locks. `ApplyRun.Coordinator.PerformApply` has it exactly: every call that has read the
  change removes the mark of its application, whatever the answer.
- When recording COMPLETED fails, the run reports `rollback_failed` although all its writes stay
  (`ApplyRun.Coordinator.Recover`, the clause for a completed machine).
- The first event of a run has the sequence number 0 (`apps/config-agent/src/changes/applyCoordinator.ts:210-216`), which the
  journal's decoder refuses (`apps/config-agent/src/changes/runtimeHandlers.ts:434-435`). Every event reads the journal
  first, so after that one nothing more can be recorded, and a restart cannot read the journal either
  (`JournalDecoder.FirstEventSpoils`). `JournalDecoder.RecordedExactly` says for which numbering a run's events are all
  recorded. The transaction's theorems hold for any pattern of failed records, this one included; those about recovery are
  about journals that can be read.
- A run whose failed rollback could not be recorded stays unfinished in the journal. Once an owner has lifted the block
  (`apps/config-agent/src/changes/runtimeHandlers.ts:1186-1194`), a later run of the application may complete, and the next
  recovery undoes it (`Recovery.StaleRecordUndoes`); it leaves the later run's sources alone exactly when both agree on every
  source they share (`Recovery.StaleRollback`).
- A crash after the first write and before the record of WRITTEN: recovery takes the run for one without writes and may
  record it as rolled back, although the source never gets its old bytes again (`Recovery.UnrecordedWriteStays`).
  `Recovery.KnownWrites` says which runs recovery knows to have written.
- The top-ranked definition shadows lower ones for consumers it does not serve (`Precedence.ConsumerLeftOut`). A consumer is
  served exactly when no definition that does not serve it shadows the highest one that does (`Precedence.ServedExactly`).

## Model

| member | source | states |
|---|---|---|
| `FlowTheorems.AcceptedBoundaryIsSound` | scripts/error-telemetry/coverage.ts:3119-3194 | For every accepted boundary whose loops do not reassign a followed name, and whose finalizer, if it has one, ends normally or has evidence of its own wherever it would discard a direct return, every run that ends, under any oracle (any branch, value, exception, number of rounds), has evidence for the original error: captured for good, deferred and handed off by the return that ends the run, rethrown by identity, or waived by the author |
| `FlowTheorems.EvidenceUnlessDiscarded` | scripts/error-telemetry/coverage.ts:3135-3194 | For every accepted regular boundary and every run that ends: it lacks evidence if and only if the body handed the error off, the finalizer or a disposal discarded that return, and nothing else excuses the run |
| `FlowTheorems.KeptWithoutFinalizer` | scripts/error-telemetry/coverage.ts:2377-2408 | Without a finalizer no accepted boundary loses a hand-off: a disposal that discards the return is itself refused by the scan |
| `FlowTheorems.KeptByFinalizer` | scripts/error-telemetry/coverage.ts:2560-2587 | Behind a finalizer that by the scan's reading ends normally, or has evidence wherever it does not, no run loses a hand-off without an excuse |
| `FlowTheorems.EvidenceCarries` | scripts/error-telemetry/coverage.ts:3119-3133 | The test on analysed completions carries over to every concrete completion they cover, hand-offs apart |
| `FlowTheorems.ForInitializerCopyDeceives` | scripts/error-telemetry/coverage.ts:2679-2722 | A concrete accepted boundary with a run that loses the error: a for-initializer's alias outlives the loop |
| `FlowTheorems.LoopReassignmentDeceives` | scripts/error-telemetry/coverage.ts:2757-2775 | A concrete accepted boundary with a run that loses the error in the second round: why loop bodies must not reassign it |
| `FlowHandOffs.DiscardedHandOffDeceives` | scripts/error-telemetry/coverage.ts:2968-3001 | A concrete accepted boundary with a run that loses the error: the finalizer throws the handing-off return away |
| `FlowHandOffs.FinalizerDecides` | scripts/error-telemetry/coverage.ts:2560-2587 | A deferred capture with a direct return before any finalizer: all runs have evidence exactly when the finalizer never ends abruptly without an excuse of its own |
| `FlowVerdict.AcceptedExactly` | scripts/error-telemetry/coverage.ts:3119-3194 | The verdict is exact: a boundary whose text shows where the error is held, and none of whose runs acts before anything has happened to the error or rethrows it after a capture, is accepted if and only if all its runs have evidence |
| `FlowVerdict.RejectedHasFault` | scripts/error-telemetry/coverage.ts:3119-3194 | Every rejected boundary of that kind, with any loops, switches, labels and nested try statements, has a run that shows why: it loses the error, acts too early, or records the error twice |
| `FlowVerdict.RethrownIsMissed` | scripts/error-telemetry/coverage.ts:2589-2635 | A concrete boundary that is rejected although every run captures the error, under the name of a handler that catches it again |
| `FlowVerdict.ReachBoundary` | scripts/error-telemetry/coverage.ts:3135-3194 | Every exit of the outcome by which a boundary is judged, behind its finalizer if it has one, is reached by a run of the boundary |
| `FlowCompleteness.ReachStmt` | scripts/error-telemetry/coverage.ts:2934-3117 | Every state, completion and early effect that the scan reports for a statement from a state is that of some run from every machine in that state: no state is invented |
| `FlowCompleteness.ReachSelecting` | scripts/error-telemetry/coverage.ts:2460-2504 | Every exit of a switch's clauses is reached by a choice of selectors; unmatched states leave only a switch without a default |
| `FlowCompleteness.ReachTry` | scripts/error-telemetry/coverage.ts:2589-2635 | Every exit of a try statement is that of a run through its block, its handler and its finalizer |
| `FlowCompleteness.ReachFor` | scripts/error-telemetry/coverage.ts:2679-2722 | Every exit of a for loop is reached in at most one round and the test behind it, the early report for a loop without a test included |
| `FlowCompleteness.ReachForEach` | scripts/error-telemetry/coverage.ts:2724-2755 | The same for for-in and for-of loops, failing iterators and early exits that close them included |
| `FlowCompleteness.ReachWhile` | scripts/error-telemetry/coverage.ts:2757-2775 | The same for while loops |
| `FlowCompleteness.ReachDoWhile` | scripts/error-telemetry/coverage.ts:2777-2794 | The same for do loops |
| `FlowCompleteness.ReachLabeled` | scripts/error-telemetry/coverage.ts:3084-3100 | Every exit of a labelled statement is reached, its breaks landing behind it |
| `FlowSoundness.SoundStmt` | scripts/error-telemetry/coverage.ts:2934-3117 | For every statement: each run from a machine that an abstract state tracks ends in a completion that some analysed outcome covers, or is flagged unsafe |
| `FlowSoundness.SoundExpr` | scripts/error-telemetry/coverage.ts:2137-2208 | Evaluating an expression is covered by its analysis, captures (1045-1072) and thrown exceptions included |
| `FlowSoundness.SoundReturn` | scripts/error-telemetry/coverage.ts:2968-3001 | Returns, direct ones under deferral and ignored ones included, are covered |
| `FlowSoundness.SoundThrow` | scripts/error-telemetry/coverage.ts:3002-3027 | A throw is covered, and a rethrow keeps the identity of the original error |
| `FlowSoundness.SoundList` | scripts/error-telemetry/coverage.ts:2307-2336 | Statement lists run from any of several states are covered, with abrupt exits from every position |
| `FlowSoundness.SoundLabeled` | scripts/error-telemetry/coverage.ts:3084-3100 | Labelled statements with breaks and continues to their labels are covered |
| `FlowSoundness.SoundClauses` | scripts/error-telemetry/coverage.ts:2460-2504 | Any selected clause, with fall-through and a default in any place, is covered |
| `FlowSoundness.SoundSwitch` | scripts/error-telemetry/coverage.ts:2506-2549 | A switch is covered, the scope of its case block and its breaks included |
| `FlowSoundness.SoundFinish` | scripts/error-telemetry/coverage.ts:2560-2587 | A finally block run after any covered completion is covered: an abrupt one replaces it, a normal one restores it |
| `FlowSoundness.SoundTry` | scripts/error-telemetry/coverage.ts:2589-2635 | try with any handler and finalizer is covered, nested ones included |
| `FlowSoundness.SoundCatch` | scripts/error-telemetry/coverage.ts:2589-2635 | A handler run on a thrown completion is covered from the states in which the tried block throws |
| `FlowSoundness.SoundWhile` | scripts/error-telemetry/coverage.ts:2757-2775 | Any number of rounds is covered by one unrolling, because protection only rises |
| `FlowSoundness.SoundDoWhile` | scripts/error-telemetry/coverage.ts:2777-2794 | The same for do loops |
| `FlowSoundness.SoundFor` | scripts/error-telemetry/coverage.ts:2679-2722 | The same for loops with initializer, test and update, each of which may throw or capture |
| `FlowSoundness.SoundForEach` | scripts/error-telemetry/coverage.ts:2724-2755 | The same for for-in and for-of loops, whose binding hides outer names |
| `Fixpoints.PropagateTaint` | scripts/error-telemetry/coverage.ts:1349-1364 | Returns exactly the bindings reachable from the seeds |
| `Fixpoints.CapabilityPass` | scripts/error-telemetry/coverage.ts:1889-1969 | Stays below every closed pair, only adds, reports a change truthfully, and without a change the capability rule holds for all definitions |
| `Fixpoints.FactoryPass` | scripts/error-telemetry/coverage.ts:1889-1969 | The same for factories of capabilities |
| `Fixpoints.IdentityPass` | scripts/error-telemetry/coverage.ts:1889-1969 | The same for bindings of factories |
| `Fixpoints.EscapableCapabilityBindings` | scripts/error-telemetry/coverage.ts:1889-1969 | Ends, and returns the least pair of sets closed under all definitions |
| `Fixpoints.OrderIrrelevant` | scripts/error-telemetry/coverage.ts:1889-1969 | The result does not depend on the order of the definitions |
| `EnvFile.UpdateRoundTrip` | apps/config-agent/src/adapters/types.ts:271-432 | Parse, edit distinct definitions, reparse: the result is every other definition with its name, value and order, every set value exactly, and nothing of the deleted ones, if and only if the file fits, no set value holds NUL, every edited unquoted value is safe before the text behind it, and where an edit exposes a hidden line break the value is written in quotes and the exposed lines add nothing |
| `EnvFile.OneLineRoundTrip` | apps/config-agent/src/adapters/types.ts:271-432 | When no edit exposes a line break, the same holds if and only if the file fits, no set value holds NUL, and no bare new value is followed by text |
| `EnvEditor.EditThenReparse` | apps/config-agent/src/adapters/types.ts:280-432 | The same at the level of statements, for every file that parses, any starting offset and any ordinals |
| `EnvEditor.FaithfulOneLine` | apps/config-agent/src/adapters/types.ts:241-268 | Where no edit exposes a line break, faithful edits are those whose every replacement is safe |
| `EnvEditor.BrokenReads` | apps/config-agent/src/adapters/types.ts:241-268 | An edit that exposes a line break reads back exactly when its value is written in quotes and the exposed text reads as the rest should |
| `EnvEditor.CutIsWell` | apps/config-agent/src/adapters/types.ts:152-191 | The scanner's statements are non-empty, contiguous and concatenate back to the text, and each ends at a line break outside its quotes |
| `EnvEditor.Prepend` | apps/config-agent/src/adapters/types.ts:152-191 | A statement with its line break parses on its own before any text, also when a carriage return merges with a following line feed |
| `EnvRoundTrip.StatementSet` | apps/config-agent/src/adapters/types.ts:199-269 | After setting a value the statement reads as that value, for single-quoted, double-quoted and unquoted originals; an unquoted value before a comment is garbled when the new value is written bare |
| `EnvRoundTrip.ModeSet` | apps/config-agent/src/adapters/types.ts:342-356 | A new value never moves the end of its statement |
| `EnvEdits.EscapeDecodes` | apps/config-agent/src/adapters/types.ts:342-356 | Decoding the escaped text gives the value back, for both quotes and every value |
| `EnvEdits.EscapeMode` | apps/config-agent/src/adapters/types.ts:342-356 | Escaped text never leaves its quotes |
| `EnvFile.EditedNul` | apps/config-agent/src/adapters/types.ts:87-105 | An edited file holds NUL exactly when a value that was set does |
| `EnvFile.OpenQuoteBreaks` | apps/config-agent/src/adapters/types.ts:241-268 | A concrete file that no longer parses after a harmless edit, since a quote inside an unquoted value hid a line break |
| `EnvFile.OpenQuoteReads` | apps/config-agent/src/adapters/types.ts:241-268 | The same file parses before the edit, as one definition whose statement goes over the line break |
| `EnvFile.SameDefinitionTwice` | apps/config-agent/src/adapters/types.ts:395-432 | A concrete file, with the definition that its parse yields, is corrupted by two sets of that definition |
| `EnvRepeats.RepeatedExactly` | apps/config-agent/src/adapters/types.ts:395-432 | Two operations on one definition, in any order and among operations on others, make what the one spliced last makes alone if and only if the bytes of the other are as long as what they replace, or shorter with nothing behind |
| `EnvRepeats.CoveredReplacement` | apps/config-agent/src/adapters/types.ts:423-431 | One splice inside the range of the next leaves no trace if and only if it keeps the length, or shortens a text that ends there |
| `EnvRepeats.SortedRepeat` | apps/config-agent/src/adapters/types.ts:400-423 | The sort puts the set of a definition before its deletion, and else keeps the order of the request |
| `EnvFile.StatementEnd` | apps/config-agent/src/adapters/types.ts:152-191 | The scanning loop finds the first line break outside quotes and escapes, or reports an open quote |
| `EnvFile.DecodeEscapes` | apps/config-agent/src/adapters/types.ts:134-150 | The decoding loop, with its table of letters, is the decoder of `DecodeWritten` that the escaper inverts |
| `EnvGrammar.DecodeWritten` | apps/config-agent/src/adapters/types.ts:134-150 | Every text spelt as characters that stand for themselves or follow a backslash decodes to what they mean: in double quotes n, r and t behind a backslash are the line feed, the carriage return and the tab, every other character is itself, in single quotes and bare text all of them are; a lone backslash at the end stays |
| `EnvGrammar.EveryText` | apps/config-agent/src/adapters/types.ts:134-150 | Every text is spelt in such a way, so that the law covers all of them |
| `EnvGrammar.UsualDecodes` | apps/config-agent/src/adapters/types.ts:134-150 | A text with its line feeds, carriage returns, tabs, backslashes and double quotes written behind backslashes reads as that text in double quotes |
| `EnvGrammar.SlashedDecodes` | apps/config-agent/src/adapters/types.ts:134-150 | In single quotes and in bare text a backslash before any character gives that character |
| `EnvGrammar.TokenReads` | apps/config-agent/src/adapters/types.ts:199-269 | A value that is absent, quoted with white space behind it, or bare up to a comment behind white space is read as what its spelling means, at its exact range |
| `EnvGrammar.ValueSpelt` | apps/config-agent/src/adapters/types.ts:199-269 | Every value that is read is spelt in one of these ways: nothing else is accepted |
| `EnvGrammar.AssignmentReads` | apps/config-agent/src/adapters/types.ts:280-335 | White space, an optional export, a name, the equals sign, a value and a comment read as that name and value, wherever white space puts them |
| `EnvGrammar.AssignmentSpelt` | apps/config-agent/src/adapters/types.ts:280-335 | Every statement that reads as an assignment is spelt so |
| `EnvGrammar.BlankExactly` | apps/config-agent/src/adapters/types.ts:286-287 | A statement holds nothing if and only if its first character that is no white space, if it has one, starts a comment |
| `EnvFile.EncodedValue` | apps/config-agent/src/adapters/types.ts:342-356 | Doubling backslashes and then escaping quotes, as the serializer writes values, is the one-pass escaper that decoding inverts; a bare value has no white space, comment sign, quote, backslash or equals sign |
| `EnvFile.ParseQuotedValue` | apps/config-agent/src/adapters/types.ts:210-239 | The quoted-value loop: token up to the first unescaped quote, and only blanks or a comment behind it |
| `EnvFile.ParseBareValue` | apps/config-agent/src/adapters/types.ts:241-268 | The unquoted-value loop: token up to a comment or the end, its blanks included |
| `EnvFile.ParseValueFrom` | apps/config-agent/src/adapters/types.ts:199-269 | The value parser as a whole |
| `EnvFile.ParseAll` | apps/config-agent/src/adapters/types.ts:271-335 | The statement loop by position yields the definitions of the text cut by recursion, with ordinals and offsets |
| `EnvFile.ParseTextAssignments` | apps/config-agent/src/adapters/types.ts:271-335 | Parsing with its size and NUL checks, errors included |
| `EnvFile.SerializeUpdatedSource` | apps/config-agent/src/adapters/types.ts:358-432 | The serializer's table, its refusals, the replacement each operation asks for, the sort and the right-to-left splices make the updated text |
| `EnvSplice.EditsAre` | apps/config-agent/src/adapters/types.ts:400-422 | Every one of distinct operations is the edit of its definition: a deletion, or exactly its value |
| `EnvSplice.UpdatedIsEdited` | apps/config-agent/src/adapters/types.ts:395-432 | Sorting and splicing right to left equals editing every statement at once; a request is refused exactly when an operation is illegal or unknown |
| `EnvSplice.DefinitionsOrdered` | apps/config-agent/src/adapters/types.ts:280-335 | The definitions' ranges are disjoint and ascending, with each token inside its own range |
| `EnvSplice.DefinitionsUnique` | apps/config-agent/src/adapters/types.ts:296-321 | Name and ordinal identify a definition |
| `EnvSplice.SortDescends` | apps/config-agent/src/adapters/types.ts:423-431 | The replacements are sorted by descending start, each kept once |
| `SourceWriter.RewriteReads` | apps/config-agent/src/changes/atomicSourceWriter.ts:356-411 | What a write puts on disk reads as the wanted values, exactly when every replacement is safe |
| `SourceWriter.Disk.WriteAtomically` | apps/config-agent/src/changes/atomicSourceWriter.ts:253-326 | Whatever fails, the file holds its old bytes or all new ones; success means replaced, and it fails only when an operation on the file system does |
| `SourceWriter.Disk.Write` | apps/config-agent/src/changes/atomicSourceWriter.ts:356-411 | Compare-and-swap: nothing changes, or the source that had the expected fingerprint is replaced once by its rewriting; success means the written bytes parse and their fingerprint is returned; unless the file system fails, the answer is exactly that of the first check that refuses |
| `SourceWriter.Disk.Restore` | apps/config-agent/src/changes/atomicSourceWriter.ts:413-435 | Success means that the given bytes are back, whatever the source held; unless the file system fails, the answer is exactly that of its checks |
| `ApplyMachine.StateMachine.Transition` | apps/config-agent/src/changes/applyStateMachine.ts:56-69 | An accepted event makes one step of the table; replays and refused events change nothing, each with its own error |
| `ApplyMachine.PathShape` | apps/config-agent/src/changes/applyStateMachine.ts:33-43 | Every history goes forward and turns to rolling back at most once, for good; at most seven states |
| `ApplyMachine.NothingAfterTerminal` | apps/config-agent/src/changes/applyStateMachine.ts:33-69 | Nothing follows a terminal state |
| `ApplyPlan.SourceOperations` | apps/config-agent/src/changes/applyCoordinator.ts:119-145 | The loop over the map builds the groups of the change |
| `ApplyPlan.GroupsHoldAll` | apps/config-agent/src/changes/applyCoordinator.ts:119-145 | Every touched source has one group, with all its operations in order, and no other source has any |
| `ApplyPlan.GroupExpects` | apps/config-agent/src/changes/applyCoordinator.ts:119-145 | A group expects the fingerprint that each of its items names |
| `ApplyPlan.GroupingFails` | apps/config-agent/src/changes/applyCoordinator.ts:119-145 | Grouping fails exactly when two items expect different bytes of one source |
| `ApplyPlan.TouchedOnce` | apps/config-agent/src/changes/applyCoordinator.ts:119-145 | The writes name the touched sources, each once |
| `ApplyRun.Coordinator.PerformApply` | apps/config-agent/src/changes/applyCoordinator.ts:188-395 | All or nothing, for every pattern of failures, with every call a run makes stated exactly and in order: completed means that the whole path is journalled, each touched source was written once with all its operations, every action ran and the health check passed before the record of the end (`CommitRests`); rolled back means that the snapshot's bytes are back, the actions undone and the health check passed (`RollbackRests`), or that nothing was written; a failed rollback is reported; locks are taken in plan order and all released in reverse on every path; each rejection has its own error, and every call that read the change removes its application's active mark |
| `ApplyTrace.CommitRests` | apps/config-agent/src/changes/applyCoordinator.ts:242-260 | The last calls of a tried part that succeeds are: WRITTEN and ACTION_RUNNING recorded, every action of the change in order, each successful, HEALTH_CHECKING recorded, one passed check of the change's checks, COMPLETED recorded |
| `ApplyTrace.RollbackRests` | apps/config-agent/src/changes/applyCoordinator.ts:323-345 | The calls of a rollback that succeeds are: ROLLING_BACK recorded, every snapshotted source put back, every action undone in order, a passed rollback check, ROLLED_BACK recorded |
| `ApplyTrace.TriedIs` | apps/config-agent/src/changes/applyCoordinator.ts:206-260 | Steps were tried in order until one failed: all calls but the last one succeeded, and none is left out |
| `ApplyRun.Coordinator.RunLocked` | apps/config-agent/src/changes/applyCoordinator.ts:209-379 | The same, calls included, for a run that holds its application lock |
| `ApplyRun.Coordinator.Attempt` | apps/config-agent/src/changes/applyCoordinator.ts:209-260 | The tried part: until a write starts, every snapshotted source holds its snapshot; success means all writes were made and COMPLETED is on record; its calls are its steps up to the first that failed |
| `ApplyRun.Coordinator.WriteAll` | apps/config-agent/src/changes/applyCoordinator.ts:238-241 | Success means that each touched source was replaced once, in order, by its snapshot with its operations; a run that did not start replaced nothing, and the writes called are the plan's up to the first that failed |
| `ApplyRun.Coordinator.Recover` | apps/config-agent/src/changes/applyCoordinator.ts:261-379 | A run that is reported rolled back holds its snapshot again; a run completed in the machine is never rolled back, and keeps its writes; what was undone and what was reported is stated call by call |
| `ApplyRun.Coordinator.RollBack` | apps/config-agent/src/changes/applyCoordinator.ts:323-379 | Rolled back means restored, undone, checked and on record, in this order of calls; otherwise the failure is recorded and reported; a terminal machine changes nothing |
| `ApplyRun.Coordinator.RollBackNothing` | apps/config-agent/src/changes/applyCoordinator.ts:277-322 | Without writes, rolling back leaves every held source alone |
| `ApplyRun.Coordinator.Emit` | apps/config-agent/src/changes/applyCoordinator.ts:153-168 | Journalled events follow the machine's path with its sequence numbers; a refused step records nothing |
| `ApplyRun.Coordinator.CaptureSnapshot` | apps/config-agent/src/changes/runtimeHandlers.ts:836-865 | A snapshot has the bytes of every planned source, which hold while the locks are held, and each has the fingerprint that the change expects |
| `ApplyRun.Coordinator.RestoreSnapshot` | apps/config-agent/src/changes/runtimeHandlers.ts:942-944 | Success means that every snapshotted source holds its bytes, whatever happened to it before |
| `ApplyRun.Coordinator.ReleaseAll` | apps/config-agent/src/changes/applyCoordinator.ts:380-394 | Every lock is released once, in reverse order |
| `ApplyRun.HoldsKept` | apps/config-agent/src/changes/applyCoordinator.ts:206-225 | What others do at an await leaves a snapshot held while the locks of its sources are |
| `ApplyRun.RewrittenKept` | apps/config-agent/src/changes/applyCoordinator.ts:206-225 | The same for writes made from a snapshot |
| `ApplyRun.WriteStep` | apps/config-agent/src/changes/applyCoordinator.ts:238-241 | One more compare-and-swap write extends the rewritten part and touches nothing else |
| `ApplyOnce.Runs.Apply` | apps/config-agent/src/changes/applyCoordinator.ts:170-186 | The first synchronous part of a call: remembered result, joined run or new execution |
| `ApplyOnce.Runs.Settle` | apps/config-agent/src/changes/applyCoordinator.ts:179-185 | What an execution leaves behind when it settles or rejects |
| `ApplyOnce.ExecutionsAccounted` | apps/config-agent/src/changes/applyCoordinator.ts:170-186 | In every history of calls and settlements, executions of a run equal its rejections plus at most one that runs or has settled |
| `ApplyOnce.NeverAgain` | apps/config-agent/src/changes/applyCoordinator.ts:170-186 | A settled run keeps its result and is never executed again, whatever is called later |
| `TextOrder.BelowIs` | apps/config-agent/src/changes/validationService.ts:352-366 | Texts compare at their first difference, and a prefix comes first |
| `Locks.PlanIncreases` | apps/config-agent/src/changes/applyCoordinator.ts:206-225 | A validated change's plan holds exactly the locks of its application, its sources and its actions, in one global order |
| `Locks.StepKeepsQueues` | apps/config-agent/src/changes/runtimeHandlers.ts:180-271 | Every step keeps each lock's queue in order: the holder first, every waiter once |
| `Locks.StepKeepsSerial` | apps/config-agent/src/changes/runtimeHandlers.ts:180-271 | Every step keeps the files equal to those of the serial order so far, for every source not in use |
| `Locks.Reachable` | apps/config-agent/src/changes/runtimeHandlers.ts:180-271 | Both hold in every reachable state |
| `Locks.MutualExclusion` | apps/config-agent/src/changes/runtimeHandlers.ts:180-271 | In every reachable state a lock has one holder |
| `Locks.Serializable` | apps/config-agent/src/changes/applyCoordinator.ts:206-225 | When all interleaved runs are over, every source holds what running them one after the other in their locking order leaves, every read included |
| `Locks.NoDeadlock` | apps/config-agent/src/changes/applyCoordinator.ts:206-225 | While a run is unfinished, some run can take a step of its own |
| `Locks.StuckIsFinished` | apps/config-agent/src/changes/applyCoordinator.ts:206-225 | A reachable state without own steps is one where all runs are over |
| `Locks.Bounded` | apps/config-agent/src/changes/applyCoordinator.ts:206-225 | Locking steps are bounded by the runs' plans, so no execution goes round forever |
| `TextOrder.SortedUniqueIs` | apps/config-agent/src/changes/validationService.ts:352-366 | A set spread and sorted: the same texts, strictly ascending |
| `Validation.Validate` | apps/config-agent/src/changes/validationService.ts:399-616 | The verdict is exact: given what reading each source yields and what cross rules, the application's validator and storage answer, a request is refused with the error of the first thing that is wrong (form, versions, first bad item, then the steps behind the items), and only then; success means a well-formed request of one application whose every item is fine by catalog, manifest and one reading of its source (fingerprint, parse, exactly one definition, value rule), a sorted duplicate-free plan of exactly the touched sources, and the items as staged |
| `Validation.CheckItem` | apps/config-agent/src/changes/validationService.ts:427-490 | One item in the code's order of checks, with each source read and parsed once; the error is exactly the first that applies |
| `Validation.ImpactPlan` | apps/config-agent/src/changes/validationService.ts:352-392 | The plan's ids ascend strictly and are exactly those of the touched sources |
| `ValidatedChanges.AdmittedGroups` | apps/config-agent/src/changes/applyCoordinator.ts:119-145 | The writes of a validated change can always be grouped: its items agree on the bytes of each source |
| `ValidatedChanges.AdmittedWrites` | apps/config-agent/src/changes/validationService.ts:531-556 | On the bytes a source was validated with, the serializer never refuses the operations of a validated change |
| `ValidatedChanges.AdmittedReads` | apps/config-agent/src/changes/validationService.ts:399-556 | On those bytes a write that fits reads back as the change says if and only if the edits are faithful, when no variable is named twice |
| `ValidatedChanges.TwiceAdmitted` | packages/config-contracts/src/changeProtocol.ts:105-148 | A request that edits a variable twice is admitted for some items if and only if two editable catalog entries stand for one variable of a source |
| `ValidatedChanges.OpsDistinct` | apps/config-agent/src/changes/applyCoordinator.ts:119-145 | The operations on a source are on distinct definitions if and only if its items name distinct variables |
| `ValidatedChanges.OneEntryApart` | packages/config-contracts/src/catalog.ts:176-190 | With one catalog entry per variable every validated change names each variable once |
| `Recovery.RecordedIs` | apps/config-agent/src/changes/runtimeHandlers.ts:779-829 | The journal keeps one record per run, leaves other runs alone, and a run that may have written never forgets it |
| `Recovery.Agent.Persist` | apps/config-agent/src/changes/runtimeHandlers.ts:779-829 | The record is written as a whole or not at all, and applications with a failed rollback are blocked again |
| `Recovery.Agent.RollBack` | apps/config-agent/src/changes/runtimeHandlers.ts:994-1043 | A rollback that ends has restored every snapshotted source and is recorded so, or this very rollback failed and its application is blocked; one that crashes can be resumed. Unless something fails it ends rolled back, and then a build of the run was rolled back too |
| `Recovery.Agent.ResumeWritten` | apps/config-agent/src/changes/runtimeHandlers.ts:955-1047 | The same for a resumed run, leaving all other runs as they were; it is given up only when something failed |
| `Recovery.Agent.ResumeUnwritten` | apps/config-agent/src/changes/runtimeHandlers.ts:955-964 | A run without writes that is applied again touches its own sources and record only; rolled back is on record and leaves every source as it was found, completed is on record, and a failed end, recorded or not, blocks its application; unless something fails it completes |
| `Recovery.Agent.RunAgain` | apps/config-agent/src/changes/applyCoordinator.ts:261-379 | Its end: a commit or a rollback that could not be recorded ends as failed, and a failed record of the failure is swallowed |
| `Recovery.Agent.Unfinished` | apps/config-agent/src/changes/changeRecovery.ts:43-48 | Each unfinished run is listed exactly once |
| `Recovery.Agent.Reconcile` | apps/config-agent/src/changes/changeRecovery.ts:40-68 | A pass resumes only unfinished runs, none twice, and a pass that finishes all of them; then every run in the journal is over (rolled back or completed on record, or failed with its application blocked), and each run that had writes is rolled back with its snapshot restored, or its own rollback failed; a pass that crashes keeps what the next needs, and a pass in which nothing fails finishes, with every run that had writes rolled back on record and every other one completed |
| `Recovery.Agent.Recover` | apps/config-agent/src/changes/changeRecovery.ts:40-68 | The same end for every run, after any number of crashes during recovery; that n attempts do not finish takes at least n failures |
| `Recovery.AllKept` | apps/config-agent/src/changes/changeRecovery.ts:49-60 | Resuming one run keeps every other tracked run right, since applications share no source |
| `Recovery.TerminalConverged` | apps/config-agent/src/changes/changeRecovery.ts:43-48 | A tracked run that is skipped because its record is final has reached its own end already: restored, or failed and blocked |
| `Recovery.StaleRollback` | apps/config-agent/src/changes/runtimeHandlers.ts:994-1023 | Rolling back an old run keeps what a later run left if and only if their snapshots agree on every shared source |
| `Recovery.StaleRecordUndoes` | apps/config-agent/src/changes/runtimeHandlers.ts:1026-1043 | A concrete journal from which recovery undoes a run that completed |
| `Recovery.KnownWrites` | apps/config-agent/src/changes/runtimeHandlers.ts:779-829 | After any events of a run, its record says that it has writes if and only if one of them is WRITTEN or a later state |
| `Recovery.UnrecordedWriteStays` | apps/config-agent/src/changes/runtimeHandlers.ts:955-964 | A concrete crash between a write and its record, after which a run may be recorded as rolled back without its source being restored |
| `JournalDecoder.RecordedExactly` | apps/config-agent/src/changes/runtimeHandlers.ts:407-459 | From any journal that can be read, all events of a run are recorded if and only if the number of each event but the last is a positive safe integer |
| `JournalDecoder.FirstEventSpoils` | apps/config-agent/src/changes/applyCoordinator.ts:210-216 | After an event with the number 0 no event of any run is recorded any more: of a run numbered from 0 exactly the first event is |
| `JournalDecoder.PersistedRecords` | apps/config-agent/src/changes/runtimeHandlers.ts:779-829 | Once the journal can be read, what an event writes is, numbers apart, the step that recovery is about |
| `JournalDecoder.StaysReadable` | apps/config-agent/src/changes/runtimeHandlers.ts:425-439 | An event leaves a journal that can be read if and only if its number is in range |
| `JournalDecoder.Journal.PersistEvent` | apps/config-agent/src/changes/runtimeHandlers.ts:779-829 | An event replaces its run's entry and keeps all others in order, or leaves an unreadable journal as it is |
| `JsonValue.IsJsonValue` | packages/contracts/src/databaseExplorerSchemas.ts:39-90 | Ends on every finite object graph, cyclic or shared, and accepts exactly the good values |
| `JsonValue.GoodIsAcyclic` | packages/contracts/src/databaseExplorerSchemas.ts:39-90 | Good means: along every walk from the root no object repeats, and every value reached is a finite primitive, a dense array or a plain object |
| `JsonValue.DenseExactly` | packages/contracts/src/databaseExplorerSchemas.ts:62-77 | Counting keys is enough: an accepted array has every index, its length, and no other key |
| `JsonValue.PushChildren` | packages/contracts/src/databaseExplorerSchemas.ts:61-83 | The pushing loops check the elements and push exactly the children |
| `JsonValue.PushedMeans` | packages/contracts/src/databaseExplorerSchemas.ts:60-83 | Children above an exit marker ask for exactly the object's own check, at exactly its cost |
| `ExceptionCapture.Capturer.CaptureOnce` | packages/telemetry-sdk/src/exceptionCapture.ts:226-288 | At most once per error: an undistinguished, unforced capture of a delivered error changes nothing and answers its event id, one of a waiting error merges into the waiting capture, one of a new error is that error's own occurrence; a distinct or forced repeated one has an occurrence not seen before; a new occurrence starts one delivery, of this error, or waits with its merged context; an occurrence keeps its event id for good |
| `ExceptionCapture.Capturer.Dispatch` | packages/telemetry-sdk/src/exceptionCapture.ts:100-126 | A waiting capture leaves both deferred collections and becomes one delivery with its event id and context |
| `ExceptionCapture.Capturer.Settle` | packages/telemetry-sdk/src/exceptionCapture.ts:117-120 | A settled delivery changes nothing but its own outcome; a failed one may be tried again |
| `ExceptionCapture.Capturer.DispatchDeferred` | packages/telemetry-sdk/src/exceptionCapture.ts:220-225 | One round of flush hands over each deferred capture once: the new deliveries are theirs one to one, with key, error, event id and merged context |
| `ExceptionCapture.LogMore` | packages/telemetry-sdk/src/exceptionCapture.ts:100-126 | A new delivery of an unmarked key keeps at most one delivery of a key in flight or succeeded |
| `ExceptionCapture.LogSettles` | packages/telemetry-sdk/src/exceptionCapture.ts:117-120 | Clearing a failed delivery's mark never clears another delivery's |
| `ExceptionCapture.MergeKeeps` | packages/telemetry-sdk/src/exceptionCapture.ts:74-98 | However often an error is captured, the gravest level, the last telling code and every tag key survive |
| `ExceptionCapture.MergeLast` | packages/telemetry-sdk/src/exceptionCapture.ts:74-98 | Of the captures of one error the last one that names a telling source decides the source, and the last one that sets a tag decides its value |
| `ExceptionCapture.MergeInvents` | packages/telemetry-sdk/src/exceptionCapture.ts:74-98 | Level, code and tags come from some capture of the error: merging makes nothing up |
| `ServerSpool.Spool.Enqueue` | packages/telemetry-sdk/src/serverSpool.ts:179-228 | An enqueue keeps the byte limit and the balance of all events ever accepted, and reports exactly how many were dropped |
| `ServerSpool.Spool.Flush` | packages/telemetry-sdk/src/serverSpool.ts:234-280 | A flush sends exactly the due events, oldest first, adds to the ledger exactly those whose own key was acknowledged and those that were too old, counts the former, and leaves exactly the others: a sent one with its attempt counted and its next time in the delay range, one not yet due untouched; the balance still holds |
| `ServerSpool.Spool.Attempt` | packages/telemetry-sdk/src/serverSpool.ts:244-274 | An event expires exactly when too old, waits untouched and unsent exactly until it is due, and otherwise is sent once: it leaves as delivered exactly when its own key is acknowledged, and else has one attempt more and is due again within the delay range |
| `ServerSpool.EnqueueBalances` | packages/telemetry-sdk/src/serverSpool.ts:199-227 | For every key, accepted events equal stored, acknowledged, expired, evicted and replaced ones across an enqueue |
| `ServerSpool.SettleBalances` | packages/telemetry-sdk/src/serverSpool.ts:244-277 | The same across one event of a flush |
| `ServerSpool.EvictionsFit` | packages/telemetry-sdk/src/serverSpool.ts:218-223 | The evicted prefix is the shortest one whose removal makes the rest fit |
| `SpoolRecords.ChronologicalSorts` | packages/telemetry-sdk/src/serverSpool.ts:33-39 | Events are ordered by time and key, the oldest first, none lost or invented |
| `SpoolRecords.DelayRange` | packages/telemetry-sdk/src/serverSpool.ts:263-272 | Every retry waits between 1,000 and 1,350,000 ms |
| `SpoolRecords.BaseDelayDoubles` | packages/telemetry-sdk/src/serverSpool.ts:263-272 | The base delay doubles with every attempt up to fifteen minutes |
| `SpoolRecords.DelayNear` | packages/telemetry-sdk/src/serverSpool.ts:263-272 | With its jitter a delay is between half and one and a half times its base |
| `BrowserSpool.Spool.Enqueue` | packages/telemetry-sdk/src/browserSpool.ts:302-356 | Ordinary records never exceed the event or byte limit, the diagnostic stays untouched, the reported count is what left, and what stays is everything young enough without its shortest oldest part that had to go |
| `BrowserSpool.SurplusFits` | packages/telemetry-sdk/src/browserSpool.ts:330-350 | The part that goes is the shortest prefix whose removal makes room |
| `BrowserSpool.Spool.RecordEvictionDiagnostic` | packages/telemetry-sdk/src/browserSpool.ts:358-394 | At most one diagnostic exists, and it holds the saturated sum of the evictions reported since its last delivery; impossible counts change nothing |
| `BrowserSpool.Spool.FlushOne` | packages/telemetry-sdk/src/browserSpool.ts:413-457 | One record is aged out exactly when too old, left alone until it is due, and else sent once, and no other is touched: it goes when its own key was acknowledged and is put off with one attempt more when not; it counts as delivered exactly when its own key was acknowledged; the diagnostic is never aged out, and its sum restarts only on delivery |
| `BrowserSpool.Spool.Flush` | packages/telemetry-sdk/src/browserSpool.ts:413-457 | The bounds and the diagnostic's count hold across a whole flush, every due record is sent once, oldest first, the counts are those of the records delivered and of those left for later, and every record whose key is gone was too old or answered by its own key |
| `Ulid.Generator.CreateUlid` | packages/telemetry-sdk/src/ids.ts:44-57 | Ids ascend strictly over every sequence of timestamps, repeated and backward ones included; exhaustion is the only failure and wraps nothing |
| `Ulid.AlphabetIs` | packages/telemetry-sdk/src/ids.ts:7-29 | The digits ascend and are the decimal digits and the capital letters but I, L, O and U |
| `Ulid.UlidAscends` | packages/telemetry-sdk/src/ids.ts:44-57 | Rendered ids compare as their time and then their randomness |
| `Ulid.EncodeAscends` | packages/telemetry-sdk/src/ids.ts:7-29 | Fixed-width base-32 text keeps the order of numbers |
| `Ulid.EncodeDigits` | packages/telemetry-sdk/src/ids.ts:7-29 | The digit loop renders the number in base 32 |
| `Ulid.IncrementRandom` | packages/telemetry-sdk/src/ids.ts:31-42 | Byte-wise increment is plus one on the number, and fails exactly when every byte is full |
| `Ulid.Carry` | packages/telemetry-sdk/src/ids.ts:31-42 | A run of full bytes turns over and carries one |
| `Framing.ChunkingDoesNotMatter` | packages/config-contracts/src/framing.ts:15-49 | A stream of encoded frames cut anywhere decodes to its values in order with nothing left, or the buffer limit is reported, and never anything else |
| `Framing.SmallChunksArrive` | packages/config-contracts/src/framing.ts:26-49 | Chunks of at most the buffer limit less one longest frame never meet the limit: the whole stream arrives, however many there are |
| `Framing.DecodeStream` | packages/config-contracts/src/framing.ts:15-49 | Decoding inverts encoding for any number of frames |
| `Framing.DecodeMore` | packages/config-contracts/src/framing.ts:34-46 | Bytes that arrive later never change what was decoded before |
| `Framing.NothingComplete` | packages/config-contracts/src/framing.ts:34-46 | What is left in the buffer is never a complete frame |
| `Framing.Header` | packages/config-contracts/src/framing.ts:15-21 | The length header reads back as the length |
| `Framing.HeaderBytes` | packages/config-contracts/src/framing.ts:15-21 | On the wire the length stands with its most significant byte first |
| `Framing.FrameDecoder.Push` | packages/config-contracts/src/framing.ts:26-49 | The buffer loop takes every complete frame, and keeps the rest or fails |
| `Framing.DecodeFrames` | packages/config-contracts/src/framing.ts:59-64 | A whole buffer at once: all values, or trailing bytes are reported |
| `Precedence.StrictTotal` | apps/config-agent/src/inventory/inventoryService.ts:223-237 | With distinct ids the precedence order is a strict total order on the definitions of a name |
| `Precedence.HigherIs` | apps/config-agent/src/inventory/inventoryService.ts:228-237 | The higher rank wins; at one rank the later source does, and within a source the later definition |
| `Precedence.IntersectsIs` | apps/config-agent/src/inventory/inventoryService.ts:222-226 | Two consumer lists meet if and only if some consumer is served through both |
| `Precedence.AtMostOneEffective` | apps/config-agent/src/inventory/inventoryService.ts:348-375 | A consumer never has two effective definitions of one name, an empty consumer list meaning all |
| `Precedence.HighestIsEffective` | apps/config-agent/src/inventory/inventoryService.ts:348-375 | The top-ranked definition of every name is effective |
| `Precedence.ConsumerLeftOut` | apps/config-agent/src/inventory/inventoryService.ts:348-375 | A concrete inventory where a consumer's only definition is shadowed by one that does not serve it |
| `Precedence.ServedExactly` | apps/config-agent/src/inventory/inventoryService.ts:348-375 | A consumer has an effective definition of a name if and only if no definition that does not serve it shadows the highest one that does |
| `Precedence.ResolveEffective` | apps/config-agent/src/inventory/inventoryService.ts:348-375 | Grouping by name first decides as comparing with all definitions would |

## Left out

Error-telemetry scan:

- FlowTheorems.AcceptedBoundaryIsSound: asks that loop bodies and loop heads write no followed name (`Regular`) and that a finalizer discards no direct return without evidence of its own (`KeepsReturns`, which also excludes `using` beside such a return), because the code is wrong otherwise (`LoopReassignmentDeceives`, `ForInitializerCopyDeceives`, `DiscardedHandOffDeceives`); the names a program follows are a parameter.
- FlowVerdict.AcceptedExactly: asks for more of a program's text (`SharpBoundary`): only constants copy a name that may hold the error, no `using`, no capture whose deferral cannot be read, no forwarding of the error inside a try statement, and no handler that catches the error itself, because the scan is not exact there (`RethrownIsMissed`). Acting too early and recording twice are shown for rejected boundaries, not excluded for accepted ones, since the scan drops the early effects of a try block that has a handler.
- Expressions are atomic: an alias is written only when the whole expression completes. Binding patterns, object-literal targets, destructured catch bindings, and class, enum and module declarations are not in the mini-AST.
- A throw while a direct return is evaluated under deferral counts as part of the hand-off, as `coverage.ts:2983-2990` has it.
- Captures do not throw at run time. A loop variable read before its initialization is not modelled.
- `waived` states and exact protection are never assigned in the code, and are dropped. A capture of a nested catch's own error (foreign aliases) has no counterpart in the mini-AST.
- A `continue` to a label that is not on a loop is a syntax error in the language and is not modelled.
- Which identifiers are capture facades, import resolution, comment scanning and the type checker are parameters of the mini-AST.
- Fixpoints.EscapableCapabilityBindings: the three carry predicates are parameters and taken to be monotone; the cache of forwarded calls is not modelled.

Environment files:

- Line numbers in errors, byte offsets and UTF-8 (one unit per character), the process-manager and credential adapters.

Apply transaction, locks and recovery:

- ApplyRun.Coordinator.PerformApply: promises nothing about source bytes when a run ends as `rollback_failed`, except when COMPLETED was reached, since the code does not restore then. The best-effort mark of a failed rollback in the snapshot store is left out.
- SourceWriter.Disk.Write: owners, groups, modes, symbolic links and the steps of an atomic replace; a replace may report a failure after it took effect.
- Fingerprints are injective instead of keyed hashes. The staged-change and snapshot stores are maps; build identities are left out. Optional dependencies are taken as the runtime wires them.
- ApplyOnce.ExecutionsAccounted: an execution that never settles counts as running for ever.
- Locks.Serializable: runs read and write only sources that they locked, which validation ensures; the runs that take part are fixed at the start. Lock directories and owner probing between processes are not part of this model.
- Recovery.Agent.Reconcile: takes the journal for readable (see `FirstEventSpoils`), and restores runs whose WRITTEN is on record; for earlier crashes see `UnrecordedWriteStays`.
- JournalDecoder.Journal.Read: checks the sequence numbers; missing and ill-typed fields and the file's replacement are left out.
- Recovery.Agent.Recover: assumes that unfinished runs share no source (`Sound`), which an unrecorded failed rollback breaks; see `StaleRecordUndoes`.
- The evidence read from the agent and the fixed system, and concurrent callers that share one reconciliation.
- Validation.Validate: the rules of the catalog's validators, what reading a source yields, and the answers of cross-field and application validators and of storage are parameters. Environment files only; metadata drift of a source is one kind of failed reading. Warnings, counts, value fingerprints and the digest.

Telemetry client:

- ExceptionCapture.Capturer.CaptureOnce: without `allowFutureOccurrence`, which can clear a newer mark, and without callbacks that re-enter a capture. Errors are given by identity, normalization included. That `flush` ends needs that deliveries settle.
- ServerSpool.Spool.Enqueue: the file lock, quarantine of unreadable lines and sanitizing. Keys compare by code units instead of the locale.
- BrowserSpool.Spool.Enqueue: callers' keys differ from the diagnostic's. The exclusive queue of mutations, the shared flush, the database and the fallback store.
- Ulid.Generator.CreateUlid: timestamps below 2^50; the prefixes of event and request ids; failures of the random source.
- Framing.DecodeFrames: JSON text is an abstract codec that reads back what it wrote.

Other parts of the repository, such as routes, queries, network clients, process execution, health probes, configuration readers and encryption, are plumbing around these and are not modelled.
