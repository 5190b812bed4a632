# Verified model of Henchmen's shared state

Henchmen runs as several processes and replicas that share files, a document store and a remote
code index. This project models the parts whose correctness spans calls, processes or whole runs,
and proves what they promise. It stands alone: `dafny verify dfyconfig.toml` checks every file.

| files | what they model |
|---|---|
| `SetupToken`, `SetupTokenSafety`, `SetupTokenOrder`, `SetupTokenTidy`, `SetupTokenOverlap`, `SetupTokenRestore`, `SetupTokenAnswers` | the one-time sign-in token: any number of `rotate` and `consume` calls in any number of processes, one file-system call a step, with faults, torn writes, crashes and lost files |
| `MergeStore`, `MergeReplicas`, `MergeExclusion`, `MergeRounds`, `MergeOverlap`, `MergeOvertakes`, `MergeFields`, `MergeQueue`, `IsoTime` | the merge queue: replicas over a shared store (one store call a step), the queue run alone, and the timestamp strings both compare |
| `PyText`, `EnvText`, `EnvReading`, `EnvFile`, `EnvLines`, `EnvBlocks`, `AtomicWrite`, `ConfigStore`, `ConfigLayout` | the dotenv reader and editor, its file write and the settings update built on it |
| `SecretCreation` | first creation of a secret file by concurrent callers |
| `CallbackState`, `CallbackRuns` | single-use callback states with failing reads and writes |
| `RateLimiter`, `TtlSet` | the two pruned in-memory windows of Dispatch |
| `Chunks`, `PythonChunks`, `BraceScan`, `ChunkHeader` | the code chunker and the header of an uploaded chunk |
| `ChunkUpload`, `UploadAccounting`, `UploadRetries`, `EmbedPipeline`, `IndexAgreement`, `IndexRuns` | uploading with retries, and the incremental index over one run and over any sequence of runs |

Source paths below are relative to the repository root.

## How the model is built

- A protocol shared by several processes is a step system: a state, a total or guarded `Do` for one
  step, and `After` for a run. Results quantify over every run.
- A class whose methods update its fields is a Dafny class with those fields. Its methods keep the
  source's loops and are tied to specification functions, about which the lemmas are proved. A history
  the source does not keep (every accepted request, every accepted key) is a ghost field.
- Random tokens are fresh values and digests injective wrappers. Clock readings, query results, the
  parser's spans, a git diff and the outcome of each remote call are inputs, so every result holds for
  all of them.
- Time is a `real` in the windows and an integer number of microseconds in the merge queue.

## Where the code falls short of what it says

Each of these is a lemma with a concrete run or input, next to the condition under which the code does
keep its word.

- `dequeue` promises that the re-verification stops two replicas from both holding the queue
  (`merge_queue.py:91-96`). The stamp is read before the compare-and-swap, so a replica that pauses
  between the two gets in with an old stamp: `MergeOverlap.TwoMergesAtOnce`. Over all runs, with any
  clocks, two calls hold the queue at some moment if and only if some call whose claim is in force finds no
  rival (the guard at `merge_queue.py:174`) while a call confirmed before it still merges under a larger
  claim: `MergeOvertakes.TwoHoldIff`. When stamps grow in the order the swaps commit it never happens:
  `MergeExclusion.OneConfirmedMerge`.
- A rejected `consume` puts back the newer token it claimed by mistake (`auth.py:276-279`). With two
  overlapping consumes a replacement can occupy the name first, and the newest token is lost with
  nothing failing: `SetupTokenOverlap.OverlapLosesNewestToken`. Over all runs without faults, with any
  number of overlapping consumes, the last rotated token survives or is accepted if and only if no
  consume that claimed it went to put it back and found the name taken, the `FileExistsError` that
  `auth.py:279` suppresses: `SetupTokenRestore.LastRotatedSurvivesIff`.
- `_publish_new_secret` re-reads after regenerating a short file so that losing callers do not
  disagree (`secret_files.py:299-302`); they still can: `SecretCreation.ShortFileSplitsCallers`. Without
  hard links they can as well, from no file at all: `SecretCreation.NoLinksSplitCallers`. Callers agree
  in every run exactly when the file is complete already, or absent where hard links work:
  `SecretCreation.AgreementIff`.
- `ConfigStore` refuses line breaks in values, but only `\n` and `\r` (`config_store.py:44`), while the
  file is read with `splitlines`. A value with a vertical tab passes the guard and does not read back:
  `ConfigStore.GuardMissesABoundary`; the exact condition is `ConfigStore.ReloadAfterUpdate`.
- An inline comment starts at a space and a hash (`envfile.py:63-67`), but the value is stripped before it
  is looked for, so the comment of an empty value is read as the value: `KEY= # text` gives `# text`
  (`EnvReading.BareCommentIsTheValue`). With any text before it the comment is cut
  (`EnvReading.CommentIsCut`).
- The embedding pipeline calls itself fail-closed (`embed_pipeline.py:9-11`). After a run that cleared a
  file and could not upload it, reverting the file makes the next diff empty and its chunks stay missing:
  `IndexAgreement.RevertStrandsChunks`. No failed run is needed: storing the commit can fail without a
  word (`embedder.py:784-797`), and a completed run whose commit was not stored, then a revert, does the
  same: `IndexAgreement.UnrecordedRunStrandsChunks`. A completed run leaves every chunk of HEAD in the
  index, stale ones beside them allowed, exactly when every file its diff does not name already had its
  chunks (`IndexAgreement.AgreementIff`), and over any sequence of runs a missing chunk means that some run
  spoiled the file and none since repaired it (`IndexRuns.StrandedWasSpoiled`). The same condition covers a
  diff that comes back empty because git failed, whose exit status is not looked at.
- A full run must drop the chunks of deleted files (`embed_pipeline.py:186-188`), but one whose walk yields
  no chunk returns before clearing and still moves the commit: `IndexAgreement.EmptyWalkKeepsChunks`. A
  path is left as it should be exactly when the run has a chunk to upload or the path had none before:
  `IndexAgreement.FullRunByPath`.
- A full run asks to clear one repository (`embedder.py:515-523`), but with current file names it clears
  every repository of a shared corpus: `IndexAgreement.FullRunClearsAnother`. Another repository's files of
  a path are left as they were exactly when the run uploads nothing or all of them have older names:
  `IndexAgreement.FullRunLeavesOthersIff`.
- An incremental run and a full one should leave the same index. They part ways at a changed file under a
  dot directory, which a full run drops (`embed_pipeline.py:221`), and at a changed file that yields no chunk
  any more, blank or grown too large, whose old chunks an incremental run leaves searchable
  (`IndexAgreement.EmptiedFileKeepsChunks`); and, if the walk yields no chunk at all, at deleted files.
  Everywhere else they agree: `IndexAgreement.FullAgreesWithIncrementalIff`.
- The last fixed window of a range repeats lines only when at most 40 lines were left for the window
  before it: `Chunks.WindowsOverlap`.
- An exception raised after a chunk was stored makes `upsert_chunks` count stored chunks as failed:
  `UploadAccounting.StoredButCountedFailed`. The count is the number stored exactly when no error hid a
  kept file and no pass that raised had stored a chunk (`UploadAccounting.CountIsRightIff`), and it never
  exceeds it (`UploadAccounting.UploadAccounts`).
- A rate-limit error for a chunk that was stored all the same makes the retry store it twice and report
  success: `UploadRetries.RetryStoresTwice`. Nothing else repeats a chunk: `UploadRetries.StoredOnceIff`.

## Model

| member | source | states |
|---|---|---|
| SetupTokenSafety.AcceptedAtMostOnce | src/henchmen/console/auth.py:237-296 | over every interleaving of rotates, consumes, sweeps, faults, torn writes and crashes, no two consumes accept the same token or the token of the same file, torn or whole |
| SetupTokenSafety.SeedIssuedAtMostOnce | src/henchmen/console/auth.py:198-235 | at most one file ever carries a launcher seed and at most one rotate returns one, even after the token file vanishes (that the first one does return it is `SetupTokenAnswers.RotateIssues`) |
| SetupTokenSafety.AcceptedWasIssued | src/henchmen/console/auth.py:259-264 | an accepted token is the content of the one file it was drawn for |
| SetupTokenSafety.MatchedNeverReturns | src/henchmen/console/auth.py:265-296 | a file some consume matched is never under the live name again, in any continuation |
| SetupTokenSafety.DoInv | src/henchmen/console/auth.py:198-296 | every step keeps custody: a file has at most one holder that can still publish it, and a matched file has none |
| SetupTokenSafety.NewFileInv | src/henchmen/config/secret_files.py:178-218 | creating a file exclusively keeps the custody, seed and token invariants |
| SetupTokenOrder.LiveOnlyMovesForward | src/henchmen/console/auth.py:198-296 | with one consume in flight and no fault, the live name always holds the newest issue and issues are only appended |
| SetupTokenOrder.RestHoldsNewest | src/henchmen/console/auth.py:265-296 | at rest the live name holds the complete newest token, unused; it is the last rotated one exactly when that was not accepted, and a replacement left behind is a freshly drawn random token |
| SetupTokenOrder.DoOrdered | src/henchmen/console/auth.py:237-296 | every step of a calm run keeps the order invariant |
| SetupTokenTidy.RestLeavesOnlyTheToken | src/henchmen/console/auth.py:288-295 | at rest after a calm run no temp or claim file is left: the only name is the live one |
| SetupTokenTidy.DoTidy | src/henchmen/console/auth.py:237-296 | every step of a calm run keeps each private name with the one operation using it |
| SetupTokenOverlap.OverlapLosesNewestToken | src/henchmen/console/auth.py:266-287 | two overlapping consumes end at rest with the last rotated token under no name and accepted by nobody, nothing having failed |
| SetupTokenOverlap.OverlapRun | src/henchmen/console/auth.py:237-296 | the run behind it, step by step, without fault, crash, torn write or lost file |
| SetupTokenRestore.LastRotatedSurvivesIff | src/henchmen/console/auth.py:265-296 | over every run without faults and with any number of overlapping consumes, at rest the last rotated file is under the live name or was accepted if and only if no step of the run restored it onto a taken name |
| SetupTokenRestore.DoAround | src/henchmen/console/auth.py:265-287 | a published file stays under the live name, in an undecided claim or matched, in every step but that restore and a new publication |
| SetupTokenRestore.DoLost | src/henchmen/console/auth.py:237-296 | a file nobody holds and nobody matched stays so, whatever step is taken |
| SetupTokenAnswers.RotateIssues | src/henchmen/console/auth.py:198-235 | over every interleaving without faults, a rotate that returned issued the seed it was given exactly when it was the call that made the marker, and a fresh random token otherwise |
| SetupTokenAnswers.RotateAlone | src/henchmen/console/auth.py:198-235 | from every reachable state, whatever failed before, a rotate run alone puts its token under the live name: the seed it was given when no marker exists, a fresh random token otherwise |
| SetupTokenAnswers.ConsumeAlone | src/henchmen/console/auth.py:237-296 | from every reachable state, a consume run alone accepts exactly when the token is what the live file holds (a torn one holds its prefix); then a complete fresh token takes its place, and otherwise nothing on disk changes |
| SetupTokenAnswers.IssuedTokenSignsInOnce | src/henchmen/console/auth.py:198-296 | from every reachable state, the token a rotate issues is accepted when presented next and refused the second time |
| SetupTokenAnswers.SeededWriteFallsBack | src/henchmen/console/auth.py:219-234 | a rotate whose write of the seed fails removes the temp file and issues a fresh random token instead |
| SetupTokenAnswers.PlainWriteFails | src/henchmen/console/auth.py:219-223 | any other rotate whose write fails raises and leaves the live name alone and no temp file |
| SetupTokenAnswers.MarkIsWithdrawn | src/henchmen/config/secret_files.py:198-218 | a marker whose write fails is removed again, so that a later rotate can still use its seed |
| SetupTokenAnswers.UnreadClaimIsRestored | src/henchmen/console/auth.py:259-295 | a claim that cannot be read is refused, and put back unless a newer token has come |
| SetupTokenAnswers.FailedReplacementIsRemoved | src/henchmen/console/auth.py:266-295 | a replacement that cannot be written is removed together with the claim, and the consume raises |
| SetupTokenAnswers.UnreplacedClaimRaises | src/henchmen/console/auth.py:268-295 | a matched claim for which no replacement can be created makes the consume raise, and the claim is removed all the same |
| SetupTokenAnswers.UnrestoredIsRefused | src/henchmen/console/auth.py:276-296 | a claim that cannot be put back is removed and refused |
| SetupTokenAnswers.LeftClaimKeepsTheAnswer | src/henchmen/console/auth.py:288-296 | a claim file that cannot be removed changes no answer |
| SetupTokenAnswers.FailedReplaceUndoRaises | src/henchmen/config/secret_files.py:204-217 | when a half-written replacement cannot be removed either, the consume still raises and still removes its claim |
| MergeExclusion.OneConfirmedMerge | src/henchmen/forge/merge_queue.py:75-187 | if stamps grow in commit order, at most one confirmed claim is in force, and it is the least merging claim |
| MergeOvertakes.TwoHoldIff | src/henchmen/forge/merge_queue.py:122-187 | over every run, with any clocks, two calls hold claims in force at some moment if and only if some step is a re-verification that finds no rival for a claim in force while another call holds a confirmed, larger claim in force |
| MergeRounds.LaterHolderIsSmaller | src/henchmen/forge/merge_queue.py:122-143 | in every run, with any clocks, of two confirmed claims in force the one won later is the smaller |
| MergeRounds.RunStacked | src/henchmen/forge/merge_queue.py:98-187 | the invariant behind it, over every run: a confirmed claim in force is smaller than every claim in force won before it |
| MergeRounds.LeastIsNeverReleased | src/henchmen/forge/merge_queue.py:163-187 | from any moment at which nothing merges, whatever crashes, finishes, fails or expires later, the least claim won since is never the one released |
| MergeRounds.SomeReplicaGetsAnEntry | src/henchmen/forge/merge_queue.py:163-187 | replicas never all back off: from any moment at which nothing merges, once claims are won and no call is under way, some dequeue returned an entry claimed since, the least such claim, unless a call died between winning a claim and its re-verification |
| MergeRounds.SomeReplicaKeepsItsEntry | src/henchmen/forge/merge_queue.py:163-187 | that entry is still merging, in runs from the start in which no merge has finished, failed or expired (each of which ends a claim) |
| MergeFields.EnqueuedKeepsItsPlace | src/henchmen/forge/merge_queue.py:55-222 | over every run of any number of replicas, an enqueued entry keeps the creation time and the priority it was enqueued with |
| MergeFields.StatusMoves | src/henchmen/forge/merge_queue.py:98-222 | what one step does to an entry: a sweep or a failure mark fails it, a merge mark merges it, a swap gives it the winner's stamp, a release leaves it pending without a stamp, and every other step leaves it as it is |
| MergeFields.FailedWasCondemned | src/henchmen/forge/merge_queue.py:189-222 | over every run, an entry is failed only if it was marked failed or swept as stale |
| MergeFields.DequeueAlone | src/henchmen/forge/merge_queue.py:98-147 | from every reachable state in which nothing merges, the calls of one dequeue run alone end holding the candidate, merging under the reading of its clock, and change nothing else |
| MergeFields.BusyDequeueAlone | src/henchmen/forge/merge_queue.py:98-115 | while an unexpired merge is in force, the calls of one dequeue return nothing and change nothing |
| MergeFields.EmptyDequeueAlone | src/henchmen/forge/merge_queue.py:98-161 | with nothing merging and nothing pending it returns nothing and changes nothing either |
| MergeFields.SweepAlone | src/henchmen/forge/merge_queue.py:189-212 | a sweep fails every entry its query found, and nothing else |
| MergeExclusion.RunInv | src/henchmen/forge/merge_queue.py:98-187 | the exclusion invariant over every run whose clock agrees with the commit order |
| MergeOverlap.TwoMergesAtOnce | src/henchmen/forge/merge_queue.py:120-132 | a run of two replicas that both confirm different entries |
| MergeQueue.NewEntryWaitsItsTurn | src/henchmen/forge/merge_queue.py:55-73 | enqueueing an entry no older than the pending ones and of no higher priority than a candidate leaves that candidate the choice, full window or not |
| MergeQueue.Queue.Dequeue | src/henchmen/forge/merge_queue.py:75-147 | run alone, it returns an entry exactly when no merge is in force and one is pending, returns the candidate, and claims it on top of the swept queue |
| MergeQueue.Queue.NextCandidate | src/henchmen/forge/merge_queue.py:149-161 | the highest priority among the fifty oldest pending entries, oldest first within it |
| MergeQueue.Queue.ConfirmSoleClaim | src/henchmen/forge/merge_queue.py:163-187 | a claim is kept exactly when every other merging entry carries a stamp and a later (stamp, id) pair; a claim that is not kept is pending again without a stamp, with its creation time and priority, and nothing else changes |
| MergeQueue.Queue.ExpireStaleMerging | src/henchmen/forge/merge_queue.py:189-212 | exactly the merges whose stamp is older than half an hour fail, with every other field as it was, and they are counted |
| MergeQueue.FinishingFreesTheQueue | src/henchmen/forge/merge_queue.py:214-222 | marking an entry merged or failed leaves the queue busy exactly when another merge is in force, and every other pending entry pending |
| MergeQueue.CandidateIsFirstInPriority | src/henchmen/forge/merge_queue.py:159-161 | no pending entry of the candidate's priority is older |
| MergeQueue.HigherPriorityPassedOver | src/henchmen/forge/merge_queue.py:24-27 | a higher priority entry is passed over only when fifty pending entries are as old or older |
| MergeQueue.SweepKeepsPending | src/henchmen/forge/merge_queue.py:189-212 | the sweep leaves a merge in force exactly when one is not stale, and pending entries alone |
| IsoTime.StringOrderIsTimeOrder | src/henchmen/forge/merge_queue.py:30-38 | the UTC strings order and coincide exactly as their instants, with or without a fraction |
| IsoTime.StaleFilterIsAge | src/henchmen/forge/merge_queue.py:196-200 | the string filter on the cutoff selects exactly the stamps older than the time to live |
| IsoTime.ClaimOrderOnStrings | src/henchmen/forge/merge_queue.py:166-173 | comparing (string, id) pairs is comparing (instant, id) pairs |
| IsoTime.IsoText | src/henchmen/forge/merge_queue.py:30-38 | the string written out: padded fields, their separators, the fraction only when there is one, and the offset |
| IsoTime.Calendar | src/henchmen/forge/merge_queue.py:30-38 | the instant the strings stand for follows the calendar: month lengths, leap years, and a day after the last of a month or a year is the first of the next |
| EnvText.EscapeRoundTrip | src/henchmen/cli/envfile.py:61-78 | the two sequential replaces undo the escaping for every mix of backslashes and quotes |
| EnvText.QuoteRoundTrip | src/henchmen/cli/envfile.py:56-78 | unquoting a quoted value gives the value, for every string; what hand-written values read as is `EnvReading` |
| EnvText.QuotedText | src/henchmen/cli/envfile.py:29-78 | a value is written as it is exactly when it has text and no blank, hash, quote, backslash, dollar or backtick, and escaped between quotes otherwise |
| EnvText.RenderedLineReadsBack | src/henchmen/cli/envfile.py:114-118 | a rendered assignment parses back to its key and value exactly when the key is a name |
| EnvText.ParseRendered | src/henchmen/cli/envfile.py:28-28 | the assignment pattern matches a rendered line with the whole rest as value |
| EnvReading.CommentIsCut | src/henchmen/cli/envfile.py:63-67 | an unquoted value reads as its text up to the first space and hash, stripped, whatever the comment says |
| EnvReading.PlainReads | src/henchmen/cli/envfile.py:56-67 | a value without a comment or a matching pair of quotes reads as itself, stripped |
| EnvReading.SingleQuotedReads | src/henchmen/cli/envfile.py:56-62 | everything between single quotes is the value, hashes, backslashes and spaces included |
| EnvReading.DoubleQuotedReads | src/henchmen/cli/envfile.py:56-62 | between double quotes the same for text without backslashes (with them, `EnvText.EscapeRoundTrip`) |
| EnvReading.BareCommentIsTheValue | src/henchmen/cli/envfile.py:63-67 | a value that starts with a hash is no comment: `KEY= # text` reads as `# text` |
| EnvReading.AssignmentReads | src/henchmen/cli/envfile.py:28-28 | blanks, an `export` and blanks around the name do not change the key or the text after the equals sign |
| EnvReading.CommentLineReads | src/henchmen/cli/envfile.py:113-118 | a line whose first printed character cannot start a name assigns nothing |
| EnvReading.FileReads | src/henchmen/cli/envfile.py:109-129 | in a file of any lines, a key reads as the last line that assigns it |
| PyText.LineEnds | src/henchmen/cli/envfile.py:113-113 | every boundary ends a line, and a carriage return with its line feed ends one, not two |
| EnvReading.CommentedLineReads | src/henchmen/cli/envfile.py:109-129 | the whole way from the file: the last line for a key, with blanks, `export` and a comment, reads as its text alone |
| EnvFile.ParsedIsClean | src/henchmen/cli/envfile.py:109-119 | every line a file is parsed into holds no line boundary and parses back to itself |
| EnvFile.Editor.Get | src/henchmen/cli/envfile.py:123-129 | the loop returns the map's value: the last assignment wins |
| EnvFile.Editor.Keys | src/henchmen/cli/envfile.py:131-137 | exactly the map's keys, in order of first appearance |
| EnvFile.Editor.Set | src/henchmen/cli/envfile.py:144-157 | first occurrence replaced and later ones dropped, or inserted at the section's end, or appended |
| EnvFile.Editor.SetMany | src/henchmen/cli/envfile.py:159-161 | the map is overlaid with every value in order, by one edit of the lines for each |
| EnvFile.Editor.Unset | src/henchmen/cli/envfile.py:163-164 | the map loses exactly the key, no line assigns it any more, and the lines are the old ones without the key's |
| EnvFile.Editor.SectionEnd | src/henchmen/cli/envfile.py:204-211 | the position just past the assignments that follow the section's first header |
| EnvFile.Editor.EnsureSection | src/henchmen/cli/envfile.py:196-202 | the header exists afterwards; only it and a separating blank line are added |
| EnvFile.SetRefinesUpdate | src/henchmen/cli/envfile.py:144-157 | whichever branch is taken, the map changes at the key alone |
| EnvFile.WithoutRefinesRemoval | src/henchmen/cli/envfile.py:163-164 | removing a key's lines removes it from the map |
| EnvFile.SetKeepsOtherLines | src/henchmen/cli/envfile.py:144-157 | every other line survives verbatim and in order, and an existing key keeps its place |
| EnvFile.RenderParses | src/henchmen/cli/envfile.py:166-169 | rendering and parsing gives back the lines without trailing empty ones |
| EnvFile.RenderIsFixedPoint | src/henchmen/cli/envfile.py:109-169 | rendering, parsing and rendering again changes nothing, for every text |
| EnvFile.SessionRefinesMap | src/henchmen/cli/envfile.py:144-164 | any sequence of edits acts on the lines as on a map |
| EnvFile.EditingRefinesMap | src/henchmen/cli/envfile.py:109-169 | any sequence of edits, rendered and parsed again, acts as on a map |
| EnvLines.SessionKeepsOtherLines | src/henchmen/cli/envfile.py:144-164 | after any number of edits, the lines of keys not edited, comments and blank lines stand verbatim and in order before lines without a key |
| EnvLines.SavedSessionKeepsOtherLines | src/henchmen/cli/envfile.py:109-169 | the same after saving and reloading, but for blank lines at the very end, when the values set can be stored |
| EnvBlocks.FreshSection | src/henchmen/cli/envfile.py:144-202 | a new key of a section that is not there is written below everything else: a blank line if there is text above, the header, the assignment |
| EnvBlocks.NewKeyInBlock | src/henchmen/cli/envfile.py:150-153 | a new key of a section stands in the block of assignments under the section's first header |
| EnvBlocks.SessionKeepsBlock | src/henchmen/cli/envfile.py:144-164 | through any later edits of other keys it stays in that block |
| EnvBlocks.SavedBlock | src/henchmen/cli/envfile.py:109-169 | saving and reloading keeps every block |
| EnvFile.ValueReadsBackIff | src/henchmen/cli/envfile.py:113-146 | a value set, written and read back is the same exactly when it holds no `splitlines` boundary |
| AtomicWrite.StoppedWriteIsComplete | src/henchmen/cli/envfile.py:171-188 | wherever a write stops, the main file is the complete old or new text, and when it is new the backup is exactly the old |
| AtomicWrite.StoppedIsAllowed | src/henchmen/cli/envfile.py:171-188 | wherever a write stops, main file and backup are both old, old with its copy as backup, or new with it, and the main file is old until it is replaced |
| AtomicWrite.AllowedIsReached | src/henchmen/cli/envfile.py:171-188 | each of these states is reached by stopping a write in which no call fails |
| AtomicWrite.CompletesAlone | src/henchmen/config/secret_files.py:221-236 | undisturbed, the write finishes and replaces the main file |
| AtomicWrite.SmoothWriteCompletes | src/henchmen/config/secret_files.py:151-236 | with no error, at most four busy renames and however short the single writes, a write completes, the old content its backup |
| AtomicWrite.TempStaysAFront | src/henchmen/config/secret_files.py:198-206 | wherever a write is, the temp file holds the front of what is being written, and all of it once a rename is tried |
| AtomicWrite.CompletesThroughBusy | src/henchmen/config/secret_files.py:151-166 | up to four busy renames do not stop a write: the fifth attempt replaces the file |
| AtomicWrite.NoTempLeft | src/henchmen/config/secret_files.py:221-236 | a write that ended, well or not, leaves no temp file unless the removal itself failed |
| AtomicWrite.ErrorRaises | src/henchmen/config/secret_files.py:221-236 | any other error ends the write as failed, with the file and the backup as they were |
| ConfigStore.Store.Update | src/henchmen/console/config_store.py:191-222 | all or nothing for every course of the write's calls, crash included: refused, failed or cut off, the file is as it was; it is refused exactly for unacceptable batches; a finished write stores the loaded lines after one edit for each value and each removal, in order and in the named section, with the old file as backup |
| ConfigStore.Store.Unset | src/henchmen/console/config_store.py:224-236 | refused exactly when a key is not writable, nothing written exactly when there is nothing to remove, the file as it was when the write fails or is cut off, and otherwise the file holds the loaded lines after one removal for each key and a reload shows the old settings without the keys |
| ConfigStore.Store.Check | src/henchmen/console/config_store.py:201-210 | the checks pass exactly for acceptable batches, and name the first reason otherwise |
| ConfigStore.Store.Write | src/henchmen/cli/envfile.py:180-188 | main file and backup are what the atomic write's calls leave; the file is replaced as a whole or not at all, and never before its complete previous content is the backup |
| ConfigStore.ReloadAfterUpdate | src/henchmen/console/config_store.py:191-222 | after reload the settings are the old ones with the values and without the removals, exactly when no value holds a `splitlines` boundary |
| ConfigLayout.UpdateKeepsTheRest | src/henchmen/console/config_store.py:191-236 | what an update or a removal leaves on disk has every comment, blank line and other setting of the old file, verbatim and in order, up to added section lines and blank lines at the very end |
| ConfigLayout.NewKeysUnderHeader | src/henchmen/console/config_store.py:218-219 | each new key is on disk in the block under the first header of its section |
| ConfigStore.ForbiddenIff | src/henchmen/console/config_store.py:44-44 | exactly the values with a line feed, a carriage return or a NUL are refused |
| ConfigStore.GuardMissesABoundary | src/henchmen/console/config_store.py:44-44 | a value the guard accepts that holds a boundary |
| SecretCreation.CallersAgree | src/henchmen/config/secret_files.py:246-347 | from a sufficient file, or from none where hard links work, all callers return the same bytes, those on disk, and the file is never short |
| SecretCreation.PublishedForGood | src/henchmen/config/secret_files.py:262-282 | once published, the content never changes |
| SecretCreation.ShortFileSplitsCallers | src/henchmen/config/secret_files.py:284-307 | from any short file, a run in which two callers return different secrets |
| SecretCreation.NoLinksSplitCallers | src/henchmen/config/secret_files.py:271-278 | without hard links, a run from no file in which two callers return different secrets |
| SecretCreation.AgreementIff | src/henchmen/config/secret_files.py:246-347 | callers agree in every run exactly when the file is sufficient at the start, or absent where hard links work |
| SecretCreation.ResultsAreLongEnough | src/henchmen/config/secret_files.py:325-347 | whatever was there and whatever the filesystem, no caller returns fewer bytes than the minimum |
| SecretCreation.CallerAlone | src/henchmen/config/secret_files.py:246-347 | from every reachable state a caller run alone returns, and returns what is then on disk: the file there if it is long enough, its own secret otherwise |
| SecretCreation.PartialWrites | src/henchmen/config/secret_files.py:198-206 | a short write to a temp file shows nothing under the name, and without links it shows at once |
| SecretCreation.ShortFileIsReadFiveTimes | src/henchmen/config/secret_files.py:284-307 | a caller that lost to a short file reads it five times before it writes its own secret over it |
| CallbackState.Store.Issue | src/henchmen/console/callback_state.py:104-126 | live entries plus the new one, cut to the cap by earliest expiry, are on disk exactly when the write succeeded |
| CallbackState.Store.DropOldest | src/henchmen/console/callback_state.py:121-124 | what is kept has the cap's size and nothing evicted outlasts it; on a tie the new state stays |
| CallbackState.Store.Consume | src/henchmen/console/callback_state.py:128-158 | returns data exactly for a state of at most 256 characters that is stored for that purpose, readable and unexpired and whose removal was saved, and returns what was stored with it; a saved removal takes it and the expired ones from the file and nothing else |
| CallbackRuns.AcceptedAtMostOnce | src/henchmen/console/callback_state.py:9-14 | over any run, with failing reads and writes and any clock, a state is accepted at most once |
| CallbackRuns.AcceptedWasPending | src/henchmen/console/callback_state.py:128-158 | an accepted state was issued for that purpose, saved, never evicted, unexpired, carries its data, and is gone from disk |
| CallbackRuns.PendingIsAccepted | src/henchmen/console/callback_state.py:128-158 | over any run, whatever else the file holds: a state an issue stored, presented for its purpose before it expires, with read and write succeeding, is accepted and returns the data of that issue |
| CallbackRuns.StaysPending | src/henchmen/console/callback_state.py:104-158 | a stored state stays stored through any calls for other states before its expiry, as long as the file is not full when another is issued |
| CallbackRuns.OthersAreSpared | src/henchmen/console/callback_state.py:104-158 | each such call leaves every other live entry as it was |
| CallbackRuns.SavedHoldsLive | src/henchmen/console/callback_state.py:104-158 | what a saved call leaves beside its own entry is unexpired |
| CallbackRuns.PresentedIsBurned | src/henchmen/console/callback_state.py:137-154 | a presentation whose removal is saved uses the state up, even for the wrong purpose or too late |
| CallbackRuns.UnsavedIsRefused | src/henchmen/console/callback_state.py:141-150 | a presentation whose removal is not saved is refused and changes nothing |
| CallbackRuns.GoneForGood | src/henchmen/console/callback_state.py:104-158 | a state that left the file never returns |
| CallbackRuns.IssuedIsStoredIff | src/henchmen/console/callback_state.py:119-125 | a saved issue keeps the new state exactly when fewer than twenty live states outlast it, and the file never exceeds the cap |
| CallbackRuns.SteadyClockStores | src/henchmen/console/callback_state.py:119-125 | when no stored state expires later than the new one, a saved issue always keeps it |
| RateLimiter.Limiter.Dispatch | src/henchmen/dispatch/server.py:112-161 | a request outside the limited paths passes and changes nothing; any other passes exactly when the full history holds fewer than `limit` accepted requests of its client key in the last window |
| RateLimiter.MountingChangesNothing | src/henchmen/dispatch/server.py:49-59 | under any mount prefix a path is limited as it is without one |
| RateLimiter.UntrustedHeaderIsIgnored | src/henchmen/dispatch/server.py:113-126 | unless the header is trusted, a request counts for the address it came from, whatever the header says |
| RateLimiter.FirstForwardedIsTheClient | src/henchmen/dispatch/server.py:120-126 | when it is, the client is the first entry of the header, stripped, and the peer again if that is empty |
| RateLimiter.LimitedIff | src/henchmen/dispatch/server.py:46-46 | exactly the webhook, API and pub/sub paths are limited |
| RateLimiter.AdmittedIff | src/henchmen/dispatch/server.py:135-141 | a request passes exactly when fewer than `limit` earlier accepted requests of its key lie in the window |
| RateLimiter.Limiter.EvictIdle | src/henchmen/dispatch/server.py:163-167 | exactly the idle buckets go, and every later window still shows what the history shows |
| RateLimiter.WindowNeverExceedsLimit | src/henchmen/dispatch/server.py:135-160 | no half-open interval of one window length, open at either end, holds more than `limit` accepted requests of a key |
| RateLimiter.EvictingIdle | src/henchmen/dispatch/server.py:163-167 | a missing bucket shows the same as an idle one |
| TtlSet.Guard.AddIfAbsent | src/henchmen/dispatch/idempotency.py:51-66 | new exactly when the pruned set does not hold the key, and while clock readings have not gone backwards exactly when no acceptance of the key lies within the time to live and the last `max_entries`; a replay extends nothing; the size stays within the cap |
| TtlSet.DroppedWhy | src/henchmen/dispatch/idempotency.py:41-49 | an entry that pruning drops was expired, or a full cap of other keys, none stamped earlier, stays |
| TtlSet.PrunedInStep | src/henchmen/dispatch/idempotency.py:41-49 | while readings have not gone backwards, pruning drops exactly a prefix of acceptances that no longer matter |
| TtlSet.AcceptedTwice | src/henchmen/dispatch/idempotency.py:41-66 | a key accepted twice means the time to live has passed or `max_entries` distinct other keys came between |
| TtlSet.AcceptedTwiceAnyClock | src/henchmen/dispatch/idempotency.py:51-66 | in whatever order threads read the clock and take the lock, a key accepted twice means that some call from the first to the second read a time past the time to live or held a full cap of other keys stamped no earlier |
| TtlSet.PresentIsReplay | src/henchmen/dispatch/idempotency.py:61-63 | presence in the pruned set is being a replay of the full history |
| TtlSet.RecentIsReplay | src/henchmen/dispatch/idempotency.py:41-66 | an acceptance within the time to live and among the last `max_entries` makes its key a replay |
| TtlSet.UnseenIsNew | src/henchmen/dispatch/idempotency.py:61-66 | a key never accepted is none |
| TtlSet.RecordedIsRefused | src/henchmen/dispatch/idempotency.py:51-66 | a key in the set, not expired, is refused |
| TtlSet.UnrecordedIsAccepted | src/henchmen/dispatch/idempotency.py:51-66 | a key not in the set is accepted |
| Chunks.ChunkLineRange | src/henchmen/dossier/chunker.py:274-307 | one chunk for each window of the range that holds text, its content exactly its lines |
| Chunks.ChunkFixedSize | src/henchmen/dossier/chunker.py:412-441 | one chunk for each window of the file, blank or not |
| Chunks.WindowsFit | src/henchmen/dossier/chunker.py:287-306 | windows stay in the range and have at most 40 lines |
| Chunks.WindowsCover | src/henchmen/dossier/chunker.py:287-306 | every line of the range lies in a window |
| Chunks.WindowsOverlap | src/henchmen/dossier/chunker.py:303-306 | windows start 35 lines apart; when they share five lines, and when the next one adds nothing |
| Chunks.BlankBodyIff | src/henchmen/dossier/chunker.py:283-291 | a range's joined text strips to nothing exactly when none of its lines holds text |
| PythonChunks.ChunkPython | src/henchmen/dossier/chunker.py:182-253 | symbol chunks, then the gaps' windows; on a syntax error the whole file in windows |
| PythonChunks.ChunkNode | src/henchmen/dossier/chunker.py:200-250 | a function once, a class once with each of its methods again |
| PythonChunks.ChunkUncoveredRanges | src/henchmen/dossier/chunker.py:256-271 | the windows of exactly the file's gaps |
| PythonChunks.GapsExact | src/henchmen/dossier/chunker.py:264-270 | the sweep's gaps hold exactly the lines no span holds, however spans overlap |
| PythonChunks.GapsMissSpans | src/henchmen/dossier/chunker.py:256-271 | the same for spans in any order |
| PythonChunks.SortedSorts | src/henchmen/dossier/chunker.py:265-265 | the spans are ordered and a permutation of those given |
| PythonChunks.EveryLineIsShown | src/henchmen/dossier/chunker.py:182-253 | every line with text is in a chunk, whose content as cut is exactly its line range |
| PythonChunks.SymbolChunksExact | src/henchmen/dossier/chunker.py:200-250 | every symbol chunk is named and its content is exactly its line range |
| PythonChunks.EverySymbolIsThere | src/henchmen/dossier/chunker.py:200-236 | every top-level function and class of the file has its chunk, with its name, range, text and kind |
| PythonChunks.EveryMethodIsThere | src/henchmen/dossier/chunker.py:232-250 | every method of a class has its own chunk, named after class and method |
| PythonChunks.GapChunksAvoidSymbols | src/henchmen/dossier/chunker.py:256-307 | window chunks hold no symbol line, at most 40 lines and some text |
| BraceScan.FindMatchingBrace | src/henchmen/dossier/chunker.py:323-345 | the end of the shortest balanced text from the first brace before the bound, or the end of a brace-less statement |
| BraceScan.FindStatementEnd | src/henchmen/dossier/chunker.py:348-356 | after the semicolon, or at the line break if that is first, or the bound |
| BraceScan.DeclarationEndIsExact | src/henchmen/dossier/chunker.py:323-345 | a declaration with a well-nested block ends right after the block, whatever follows |
| BraceScan.StatementStaysInside | src/henchmen/dossier/chunker.py:326-335 | a brace-less declaration never reaches past the next declaration |
| BraceScan.LimitIsKept | src/henchmen/dossier/chunker.py:332-335 | with no brace before the limit the scan ends at the statement, at the limit at the latest |
| BraceScan.BraceBeforeLimit | src/henchmen/dossier/chunker.py:332-345 | with a brace before the limit it ends with that brace's block, wherever that ends |
| BraceScan.RenderBalances | src/henchmen/dossier/chunker.py:337-345 | well-nested code balances and never closes more than it opened |
| ChunkHeader.HeaderRoundTripIff | src/henchmen/dossier/embedder.py:158-180 | parsing a payload gives back repository, path, span, symbol and language exactly when no text field holds a bar or line break |
| ChunkHeader.BodyRoundTripIff | src/henchmen/dossier/embedder.py:158-188 | stripping gives back the content cut at the limit exactly when no header field holds a line break |
| ChunkHeader.PayloadText | src/henchmen/dossier/embedder.py:158-164 | the uploaded text written out: seven fields on one line, and below it at most 4000 characters of the chunk |
| ChunkHeader.ForeignTextStays | src/henchmen/dossier/embedder.py:167-188 | from text without the marker no header is read and nothing is taken off |
| ChunkHeader.AnyHeaderParses | src/henchmen/dossier/embedder.py:167-188 | a header line of any plain fields parses exactly when it has six and the third and fourth are integers, and stripping removes it with its line break |
| ChunkHeader.SignsAreRead | src/henchmen/dossier/embedder.py:177-178 | an integer is read through blanks and a sign |
| ChunkHeader.UnderscoresAreSkipped | src/henchmen/dossier/embedder.py:177-178 | and through single underscores between digits |
| ChunkHeader.DecimalRoundTrip | src/henchmen/dossier/embedder.py:177-178 | printing and parsing an integer gives it back |
| ChunkHeader.ParsedIsPlain | src/henchmen/dossier/embedder.py:167-180 | whatever text parses, its fields hold neither bar nor line break |
| ChunkUpload.Corpus.UploadBatch | src/henchmen/dossier/embedder.py:430-476 | one pass stores, fails or hands back as the outcomes say, errors for files the server kept included, and raises without a count |
| ChunkUpload.Corpus.Attempts | src/henchmen/dossier/embedder.py:481-499 | one batch with up to three passes, what is left given up |
| ChunkUpload.Corpus.Upload | src/henchmen/dossier/embedder.py:478-507 | batches of fifty in order, totals added |
| ChunkUpload.Corpus.DeleteMatching | src/henchmen/dossier/embedder.py:515-552 | files of the keys go, under current and older names, unless their delete has no effect, whatever it raises; a listing that breaks, at its end included, keeps the rest |
| UploadAccounting.UploadAccounts | src/henchmen/dossier/embedder.py:478-507 | uploaded plus failed is the number of chunks, uploaded ones are stored, without failures every chunk is stored in order and nothing raised, with no error hiding a kept file none is stored twice, and calls are at most three a chunk |
| UploadAccounting.NoFailureIff | src/henchmen/dossier/embedder.py:478-507 | with no error hiding a kept file, no failure is reported exactly when the stored chunks are those given and nothing raised |
| UploadRetries.AllGoesIn | src/henchmen/dossier/embedder.py:478-507 | when every call succeeds, exactly the given chunks are stored, in order, with one call each |
| UploadRetries.RefusalsStandAlone | src/henchmen/dossier/embedder.py:430-476 | a refused chunk is counted as failed and costs no other chunk: with only successes and refusals, exactly the others are stored |
| UploadRetries.TwoLimitsAreSurvived | src/henchmen/dossier/embedder.py:481-499 | two rate limits in a row are retried: the batch is stored all the same |
| UploadRetries.BreakCostsOneBatch | src/henchmen/dossier/embedder.py:485-489 | a raise costs the fifty chunks of its batch, and the other batches are stored |
| UploadAccounting.CountIsRightIff | src/henchmen/dossier/embedder.py:478-507 | the uploaded count is the number stored exactly when no error hid a kept file and no pass that raised had stored a chunk |
| UploadRetries.StoredOnceIff | src/henchmen/dossier/embedder.py:481-499 | no chunk is stored twice exactly when no pass was rate limited on a chunk the server kept that a later attempt stores again |
| UploadRetries.RetryStoresTwice | src/henchmen/dossier/embedder.py:492-499 | one chunk stored twice with no failure reported |
| UploadAccounting.StoredButCountedFailed | src/henchmen/dossier/embedder.py:485-489 | a chunk stored and still counted as failed |
| UploadAccounting.AlwaysRateLimited | src/henchmen/dossier/embedder.py:492-499 | rate limited throughout, each chunk is counted as failed once |
| UploadAccounting.SweepClears | src/henchmen/dossier/embedder.py:531-550 | clearing by path never touches other keys, and clears its own when every call succeeds |
| UploadAccounting.SweepClearsAll | src/henchmen/dossier/embedder.py:531-550 | clearing without paths, when every call succeeds, empties this repository and leaves of every other one exactly the files with older names |
| EmbedPipeline.Pipeline.GetChangedFiles | src/henchmen/dossier/embed_pipeline.py:235-264 | deleted and renamed-away paths, and changed and renamed-to paths, in order |
| EmbedPipeline.Pipeline.UpsertChunks | src/henchmen/dossier/embedder.py:388-428 | clears first, then uploads; an unlistable corpus stops an incremental upload |
| EmbedPipeline.Pipeline.Embed | src/henchmen/dossier/embed_pipeline.py:124-209 | the whole run, including an unreadable stored commit; the commit moves to HEAD exactly when the run completes and storing it succeeds, and never after a failed run |
| IndexAgreement.GoodRunsComplete | src/henchmen/dossier/embed_pipeline.py:141-209 | when every call succeeds, every run completes, incremental or full, whatever the diff or the walk |
| IndexAgreement.UnreachableRunsFail | src/henchmen/dossier/embed_pipeline.py:192-204 | with the corpus out of reach, no run with something to upload completes |
| IndexAgreement.ForeignFilesStay | src/henchmen/dossier/embedder.py:531-543 | however it goes, a run leaves files without a readable key in the corpus as they were |
| IndexAgreement.ChangedIff | src/henchmen/dossier/embed_pipeline.py:235-264 | exactly the paths a diff names as renamed to, added or otherwise changed are re-embedded |
| IndexAgreement.DeletedIff | src/henchmen/dossier/embed_pipeline.py:235-264 | and exactly those it names as deleted or renamed away are cleared |
| IndexAgreement.DotDirectoryIsHidden | src/henchmen/dossier/embed_pipeline.py:215-221 | a file anywhere below a directory whose name starts with a dot is left out of a full run |
| IndexAgreement.OtherDotsAreVisible | src/henchmen/dossier/embed_pipeline.py:215-221 | no other dot in a path hides it, a dot file included |
| IndexAgreement.CompletedRunByPath | src/henchmen/dossier/embed_pipeline.py:145-209 | path by path, what a completed incremental run leaves; with successful deletes a re-embedded file has exactly HEAD's chunks |
| IndexAgreement.CompletedRunIndexesHead | src/henchmen/dossier/embed_pipeline.py:9-11 | from a corpus that holds the base commit, a completed run holds every chunk of HEAD |
| IndexAgreement.AgreementIff | src/henchmen/dossier/embed_pipeline.py:145-206 | a completed run leaves every chunk of HEAD in the index exactly when every file its diff does not name was already indexed |
| IndexAgreement.FullRunByPath | src/henchmen/dossier/embed_pipeline.py:142-190 | a completed full run leaves a path exactly the chunks its walk gives it if and only if it has a chunk to upload at all or the path had none before |
| IndexAgreement.EmptyWalkKeepsChunks | src/henchmen/dossier/embed_pipeline.py:172-175 | a full run that finds nothing to embed completes and leaves an old chunk in the corpus |
| IndexAgreement.FullRunLeavesOthersIff | src/henchmen/dossier/embedder.py:515-552 | with a clean sweep, a full run leaves another repository of the corpus exactly its files with older names if it uploads anything, so a path is as it was if and only if it uploads nothing or all files of the path have older names |
| IndexAgreement.FullRunClearsAnother | src/henchmen/dossier/embedder.py:531-550 | embedding one file of a repository in full removes a chunk of another |
| IndexAgreement.FullAgreesWithIncrementalIff | src/henchmen/dossier/embed_pipeline.py:142-232 | from the corpus a full run over the base leaves, clean and completed full and incremental runs leave the same files of a path if and only if it is neither a changed file under a dot directory with chunks nor a changed file that lost its chunks nor, with nothing to upload in full, a deleted one |
| IndexAgreement.EmptiedFileKeepsChunks | src/henchmen/dossier/embed_pipeline.py:160-175 | an incremental run over a file that yields no chunk any more completes and leaves its old chunk |
| IndexAgreement.RevertStrandsChunks | src/henchmen/dossier/embed_pipeline.py:192-204 | a failed run and a revert leave a completed run without the file's chunks |
| IndexAgreement.UnrecordedRunStrandsChunks | src/henchmen/dossier/embed_pipeline.py:206-209 | a completed run whose commit could not be stored and a revert leave a completed run without the file's chunks |
| IndexRuns.StrandedWasSpoiled | src/henchmen/dossier/embed_pipeline.py:141-209 | over any sequence of runs, a file of the last-indexed commit that lacks a chunk was spoiled by some run, one that failed, was not recorded or did not walk it, and repaired by none since |
| IndexRuns.RepairIndexes | src/henchmen/dossier/embed_pipeline.py:141-209 | a run that moves the commit and walks or names a file gives it all its chunks, whatever could not be deleted |
| IndexRuns.UnnamedIsUntouched | src/henchmen/dossier/embed_pipeline.py:145-190 | however it ends, an incremental run leaves alone every file its diff does not name |
| IndexRuns.FileChunksNamePaths | src/henchmen/dossier/chunker.py:182-307 | every chunk of the Python and fixed-size chunkers carries the path of its file |

## Left out

- AcceptedWasIssued: a torn file's prefix is one opaque value for each file, and the token pattern check on it is not modelled, so the model accepts torn prefixes the code would refuse.
- LastRotatedSurvivesIff: for runs without I/O errors, crashes and lost files, any of which can lose a token by itself.
- FinishingFreesTheQueue: error texts are not modelled, and marking an entry that is not in the store, which creates a document without its other fields, is modelled as a document with arbitrary ones.
- Issue: which of several old states with equal expiry is evicted is left open, since it follows the order of their digests.
- CallersAgree: only a dead caller's temp file is swept, since a sweep takes files at least five minutes old, and a failed call ends its caller. A filesystem has hard links for every caller or for none.
- ChunkPython: the parser is an input whose spans lie in the file. The parser counts fewer line breaks than `splitlines`, so in a file with form feeds the spans it reports are shifted; the lemmas hold for whatever spans come.
- EveryLineIsShown: about chunks as cut. An upload clips a chunk's content at 4000 characters (`ChunkHeader.BodyRoundTripIff`), so the tail of a longer symbol is in its chunk and not in its payload.
- FindMatchingBrace: braces in strings and comments count as braces, as in the code.
- DecimalRoundTrip: `int` also accepts digits of other scripts; the model reads ASCII digits, underscores, signs and surrounding white space.
- DeleteMatching: which file names are current and which older is an input, and so are the repository and path an older name stands for.
- GetChangedFiles: git's quoting of unusual path names is not undone by the code; a quoted path is a path that cannot be read.
- Embed: cloning, credentials, the default branch and an explicit base commit are not modelled.
- FileChunksNamePaths: the TypeScript chunker is left out with its declaration patterns.
- SavedSessionKeepsOtherLines: values with a line boundary are left out, since they split into lines of their own; `EnvFile.ValueReadsBackIff` says what becomes of them.
- Update: file encoding and universal newlines on reading are not modelled.
- Sessions, cookies, host and origin checks, secret masking and token generation in the Console: independent of the token protocol.
- `ConfigStore.get` and `write_dispatch_api_token`: a load, and the same load, edit and write as `update`.
- TypeScript declaration patterns: lines outside matched declarations are not emitted by design, so there is no coverage to prove; only the brace and statement scans are modelled.
- File permissions, ownership checks, retries of a Windows rename outside `AtomicWrite`, logging and directory synchronisation.
- Retrieval from the index, evaluation scoring, timelines, schemes, chat, wizards and the clients of outside services: plumbing whose properties are short case splits.
