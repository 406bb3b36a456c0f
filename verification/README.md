# Verified models of the job ledger, the consultation queue, the issue claims and the scanners

A Dafny 4.11 project beside the repository. It models five parts and proves what they promise over
every input, every interleaving and every crash point. `dafny verify dfyconfig.toml` checks it.

**The changelog-translation ledger** (`Ledger*`, `Prune*`, `Canonical*`). Files are a map from
fingerprint to job, times are nanoseconds, and each section under the gate is a step. `LedgerStore.Ledger`
makes the file writes one at a time and records every durable state in between, so a crash can fall
after any write. `LedgerOps` says what each operation does, `LedgerRuns` what every durable state keeps,
`LedgerSystem` what holds over whole runs, `LedgerHour` how long an hour the hourly cap covers,
`LedgerAnswers` and `LedgerArchive` what retention preserves, `PrunePlan` and `PruneRuns` how a plan from
a stale snapshot stays justified. `LedgerMeaning`, `LedgerReplies`, `LedgerDeletion` and `PruneMeaning` say of
the files alone when exactly each operation does what, and what it leaves. The hash is a parameter; runs
take the map from fingerprint to plan, which `Canonical.FingerprintDeterminesPlan` justifies for a hash
that never collides and models of one line; `CanonicalCollisions` says what other models do. A failed
`save` keeps the old file.

**The OB consultation queue** (`Ob*`). `ObStore.Store` runs each transaction statement by statement
with roll-back, `ObModel` says what it makes of the tables, `ObRuns` what any sequence of transactions
keeps, `ObMeaning` what each takes, refuses and leaves, said of the rows alone. `ObDelivery` adds the
journals, the worker, the browser script, the collector and the operator as a state machine in which
anything may stop anywhere. Two things are taken from the script: it makes
`dispatching` durable before it clicks send, and once it or the worker that started it is gone it does
nothing more. Steps that hold a lock over the row and its journal are one step. `ObAnswers` says how a
request with an answer on record can end, `ObWorker` what a worker leaves.

**The issue claims** (`Issue*`). `IssueClaim.Replay` is the meaning of an ordered comment log,
`IssueExclusion` the mutual exclusion it gives to bots that post, read again and go on only if their
claim is the one named, `IssueOrder` why the log can be read as append-only, `IssueTouch` what happens when
a touch edits an earlier comment instead of adding one, `IssueCommands` when each command answers what.

**The stream readers** (`ByteLines`, `Sse*`, `Wait*`) carry state across arbitrary chunk boundaries and
refine a whole-input reading; `SseLines` and `WaitRecords` say by characters what a line comes to. JSON and UTF-8
decoding are parameters.

**The Rust mask** (`RustMask*`, `RustGate`) blanks comments and literals in place; the laws say what stays
visible, and `RustGate` what is concluded from it.

## Where the code does less than one might expect

- The hourly cap covers an hour less 999,998 ns and no longer window (`LedgerHour.CapCoversExactly`): a recorded
  start is the millisecond it falls in. The window is about the moments at which attempts start; the
  request itself leaves a little later.
- The canonical text can be ambiguous. `model` is the one free header field: kind, language and effort come from
  closed tables and versions are one line, but a `model` in the configuration file is only trimmed
  (`daemon/src/changelog_translate.rs:832-865`), so it may hold line breaks. Exactly when two models make two
  requests share a text is `CanonicalCollisions.ModelsCollideExactly`. The condition to check is that the model is one
  line (`CanonicalCollisions.OneLineModelsAreSafe`); a break in one of the two is enough to fail it
  (`CanonicalCollisions.LineBreaksCollide`).
- A request whose answer is on record may end `failed`, exactly when `ObAnswers.AnsweredFailsExactly` says so;
  its journal is then `done`, and a retry offers the recorded answer again and does not send. The ordinary way
  there is a script that saves its answer and then runs out of time: the worker goes straight to its error
  handler, and a look that was never made counts as one that had not succeeded (`ObAnswers.AnsweredCanFail`).
- An answer whose url the store refuses leaves the request `unknown`, not `failed`, since looking at the journal
  records the url first (`ObAnswers.RefusedUrlIsUnknown`).
- A bot that claims although its own claim has gone stale is answered with a conflict, since the new claim is not
  confirmed (`IssueExclusion.ClaimConfirms`); but the attempt renews the old claim, so the next one answers
  already-claimed (`IssueExclusion.RefusedClaimRenews`).
- The child named in a claim cannot touch it (`IssueExclusion.TouchIsTheHolders`), although `scripts/agm.py:2303`
  means to allow it.
- A touch that edits an old comment can undo a confirmed takeover (`IssueTouch.TouchCanUndoTakeover`); exactly when
  is `IssueTouch.TakeoverSurvivesExactly`.
- The client's answer can depend on how the network cuts the stream once the message has stopped; exactly
  when is `SseMeaning.IndependentIffQuiet`.

## Model

| member | source | states |
|---|---|---|
| `LedgerModel.EligibleStays` | daemon/src/changelog_translate.rs:1250-1321 | a job judged removable from a stale reading is still removable at any later moment, so re-checking under the gate can only be needed for the job, not the clock |
| `LedgerModel.EligibleSpendsNothing` | daemon/src/changelog_translate.rs:1250-1299 | retention and the hourly budget agree to the nanosecond: no attempt of a job that may be pruned still counts as spent, then or later |
| `LedgerModel.CoverageComposes` | daemon/src/changelog_translate.rs:1330-1353 | strict coverage composes |
| `LedgerModel.CovererServes` | daemon/src/changelog_translate.rs:1104-1129 | whatever request a covered job could answer, the job covering it answers too |
| `LedgerOps.DecideWritesOneFile` | daemon/src/changelog_translate.rs:536-638 | a reservation, cut off after any of its writes, has changed no file but its own job's |
| `LedgerStore.Ledger.Save` | daemon/src/changelog_translate.rs:1168-1179 | a save that fails leaves the old file; one that works seals the job's status to its last attempt's state |
| `LedgerStore.Ledger.Decide` | daemon/src/changelog_translate.rs:536-638 | the durable states of a reservation (reserved, then in flight; withdrawn if the second save fails) and its answer, save failures included |
| `LedgerStore.Ledger.Finish` | daemon/src/changelog_translate.rs:640-718 | a reply closes the waiting attempt it belongs to and nothing else, in one durable write |
| `LedgerStore.Ledger.SettleDir` | daemon/src/changelog_translate.rs:763-793 | after a restart every open attempt is closed as not sent or as unknown spend, file by file, whichever saves fail |
| `LedgerStore.Ledger.ArchivePrunedJob` | daemon/src/changelog_translate.rs:1512-1600 | archiving merges the attempts, keeps conflict evidence, and reports success, file operations and every durable state |
| `LedgerStore.Ledger.ApplyPruneItem` | daemon/src/changelog_translate.rs:1607-1653 | one planned deletion is re-justified on the current files, archived, and only then unlinked |
| `LedgerStore.Ledger.ApplyPruneBatch` | daemon/src/changelog_translate.rs:1607-1653 | a batch of at most 40 items makes at most 200 counted file operations and visits every item |
| `LedgerRuns.AdmissionMeaning` | daemon/src/changelog_translate.rs:536-600 | a request that passes every test of a reservation is not covered, not busy or done, not held back, and strictly below each positive cap |
| `LedgerMeaning.SendExactly` | daemon/src/changelog_translate.rs:536-638 | a request is sent if and only if its own file is usable and its job neither done, under way, held back nor out of attempts, no finished job answers all of it, no other job under way includes all of it, both budgets have room, the language and the key are there and both writes work; each said of the attempts, times and files alone |
| `LedgerMeaning.ShownIsTrue` | daemon/src/changelog_translate.rs:536-600 | what is shown when nothing is sent is true: which job covers or is awaited, why and until when the own job waits, which budget is full, what is missing |
| `LedgerMeaning.WhatDecideLeaves` | daemon/src/changelog_translate.rs:573-638 | the files after each write of a reservation: one more attempt, reserved, then in flight and sent, or withdrawn as interrupted and never counted; every other file as before |
| `LedgerMeaning.NeverTwiceAtOnce` | daemon/src/changelog_translate.rs:1086-1101 | in every run, of two sends that both wait for their replies the later never asks only for what the earlier is already translating |
| `LedgerRuns.DecideKeeps` | daemon/src/changelog_translate.rs:536-638 | every durable state of a reservation keeps the directory invariant: file identity, distinct attempt ids, one open attempt and it is last, attempt spacing, in-flight cap, archive agreement, sends on record |
| `LedgerRuns.ReplyDecides` | daemon/src/changelog_translate.rs:656-761 | an attempt completes exactly on a usable reply that ended its turn and reports both token counts; anything else fails it and holds the job back for a second to an hour |
| `LedgerRuns.FinishKeeps` | daemon/src/changelog_translate.rs:640-718 | closing an attempt with any reply keeps the directory invariant |
| `LedgerReplies.WhatFinishLeaves` | daemon/src/changelog_translate.rs:640-718 | a reply makes one write, to the job that is shown, closing the first attempt with its id: completed, with the reply's summary and sections stored, or failed with its kind and the exact time it may be retried; without such an attempt it makes none |
| `LedgerReplies.WhatSettlingLeaves` | daemon/src/changelog_translate.rs:763-793 | settling closes the last attempt of exactly the readable hot jobs under way, as sent exactly if it was in flight, and leaves every other file as it was |
| `LedgerRuns.SettleKeeps` | daemon/src/changelog_translate.rs:763-793 | settling any part of the directory, with any clock readings and any failed saves, keeps the directory invariant |
| `LedgerRuns.PruneItemKeeps` | daemon/src/changelog_translate.rs:1512-1653 | every durable state of a deletion keeps the directory invariant |
| `LedgerDeletion.RemovableExactly` | daemon/src/changelog_translate.rs:1255-1321 | a job is removable exactly if it is completed and every attempt is over, began and ended in order more than an hour ago and asks for no later retry; expired if all that is more than thirty days ago |
| `LedgerDeletion.OutdoneExactly` | daemon/src/changelog_translate.rs:1330-1353 | a job is strictly covered exactly by a finished one of the same settings that was made from all of its sources and more and has a text that shows for each of its versions |
| `LedgerDeletion.RemovedExactly` | daemon/src/changelog_translate.rs:1607-1653 | a planned deletion goes through if and only if both files are usable, the job is still removable and outdone by its keeper, or a month old without one, the archive takes its attempts without a conflict, and the writes work |
| `LedgerDeletion.WhatDeletionLeaves` | daemon/src/changelog_translate.rs:1512-1653 | it leaves after its first write the archive with the attempts of both and a text, after its second the hot file gone, and nothing else changed |
| `LedgerDeletion.ConflictIsOnRecord` | daemon/src/changelog_translate.rs:1558-1590 | one attempt id with two contents stops a deletion with nothing deleted, and what the hot job spent, without its texts, is on record |
| `LedgerDeletion.OperationsExactly` | daemon/src/changelog_translate.rs:1512-1653 | how many file operations a planned deletion counts, for each way it can end |
| `LedgerDeletion.BatchOfOne` | daemon/src/changelog_translate.rs:1607-1653 | a batch of one planned deletion is that deletion, counted once if it goes through |
| `LedgerDeletion.BatchComposes` | daemon/src/changelog_translate.rs:1607-1653 | a batch is its items in order, each on the files the ones before it left |
| `LedgerRuns.RecentAreSpent` | daemon/src/changelog_translate.rs:1698-1725 | whatever the rounding, every real send whose start lies less than an hour less 999,998 ns back is among the attempts the budget counts, hot or archived |
| `LedgerRuns.BudgetKept` | daemon/src/changelog_translate.rs:536-638 | an admitted send leaves no half-open window an hour less 999,998 ns long, and no half-open hour of recorded starts, over the cap |
| `LedgerSystem.RunHolds` | daemon/src/changelog_translate.rs:513-793 | the directory and budget invariants hold in every state of every run of requests, replies, clean-up, crashes between any two writes, and restarts |
| `LedgerSystem.HourlyBudgetHolds` | daemon/src/changelog_translate.rs:536-638 | in every run, restarts and clean-up included, no half-open window an hour less 999,998 ns long holds the actual starts of more real sends than the hourly cap, and no half-open hour of recorded starts does |
| `LedgerHour.CapCoversExactly` | daemon/src/changelog_translate.rs:1250-1283 | over all runs the hourly cap holds for windows of a given length if and only if that is at most an hour less 999,998 ns: an attempt records the millisecond it started in, the budget compares nanoseconds |
| `LedgerHour.OverspendingRun` | daemon/src/changelog_translate.rs:1250-1283 | a run from the empty directory that, with a cap of one, starts two real sends exactly that far apart |
| `LedgerSystem.SingleFlightHolds` | daemon/src/changelog_translate.rs:1698-1708 | in every run at most the cap of jobs are open, in each only the last attempt is, and nothing follows a completed one |
| `LedgerSystem.SendsAreDurable` | daemon/src/changelog_translate.rs:536-638 | every real send has a sent attempt of its own on disk, wherever crashes fell |
| `LedgerSystem.AttemptSpacingHolds` | daemon/src/changelog_translate.rs:795-823 | in every state of every run, past the attempt cap each sent attempt of a hot job starts an hour or more after the one before it ended, and every attempt but the last has ended |
| `LedgerSystem.SendsAreSpaced` | daemon/src/changelog_translate.rs:795-823 | once as many real sends of one non-empty request as the cap allows have been made in a run, across clean-up and restarts, the next starts an hour or more after every earlier one had finished |
| `LedgerSystem.ResultsLast` | daemon/src/changelog_translate.rs:1104-1209 | a finished translation is served unchanged in every later state of every run |
| `LedgerSystem.CoveredStaysCovered` | daemon/src/changelog_translate.rs:1081-1129 | a request that could be answered once stays answerable and is never paid for again |
| `LedgerAnswers.CoveredFromFinished` | daemon/src/changelog_translate.rs:1104-1129 | coverage of a non-empty request depends on the finished results alone, hot or archived |
| `LedgerAnswers.PruneKeepsAnswers` | daemon/src/changelog_translate.rs:1512-1653 | every durable state of a deletion serves the same finished results and the same exact reads |
| `LedgerAnswers.PruneKeepsReuse` | daemon/src/changelog_translate.rs:1104-1129 | pruning changes no answer: covered requests and exact fingerprints are answered before exactly if after |
| `LedgerAnswers.CoveredAnswerComplete` | daemon/src/changelog_translate.rs:1104-1129 | a covered answer has one section per requested version, in request order, none dropped |
| `LedgerArchive.MergeLosesNothing` | daemon/src/changelog_translate.rs:1544-1556 | a merge keeps the archive as its beginning and holds exactly the attempts of both sides |
| `LedgerArchive.MergeIsIdempotent` | daemon/src/changelog_translate.rs:1544-1556 | merging again changes nothing |
| `LedgerArchive.MergeConflict` | daemon/src/changelog_translate.rs:1544-1556 | the merge is refused if and only if some attempt id occurs with two different contents |
| `LedgerArchive.ArchiveTwice` | daemon/src/changelog_translate.rs:1512-1600 | archiving, crashing before the unlink and archiving again writes the same archive |
| `LedgerArchive.RefusalTouchesNothing` | daemon/src/changelog_translate.rs:1512-1600 | a refused archive leaves archive and hot jobs as they were; only evidence is added |
| `LedgerArchive.PruneKeepsAttempts` | daemon/src/changelog_translate.rs:1607-1653 | no attempt of hot or archive is missing from their union in any durable state of a deletion |
| `PrunePlan.Classify` | daemon/src/changelog_translate.rs:1379-1390 | the snapshot splits into expired, candidate and completed jobs, in order |
| `PrunePlan.PairUp` | daemon/src/changelog_translate.rs:1401-1411 | each candidate with a coverer is paired with a largest one |
| `PrunePlan.PlanPrune` | daemon/src/changelog_translate.rs:1374-1448 | the loops produce the expired jobs and the choice of covered pairs |
| `PrunePlan.LargestIsUncovered` | daemon/src/changelog_translate.rs:1401-1411 | a largest coverer of a job is itself covered by nobody in the pool |
| `PrunePlan.KeepersAreNoCandidates` | daemon/src/changelog_translate.rs:1424-1440 | nobody relied on as a keeper is a covered candidate or expired, so the skip in the loop never fires |
| `PrunePlan.OldestExcessGoes` | daemon/src/changelog_translate.rs:1413-1442 | exactly the covered jobs beyond the first hundred go, and none kept finished before one that goes |
| `PrunePlan.ChoiceIsJustified` | daemon/src/changelog_translate.rs:1374-1448 | each covered deletion is an eligible unexpired job under one of its largest finished coverers |
| `PrunePlan.KeepersAreNotTargets` | daemon/src/changelog_translate.rs:1374-1448 | no planned deletion, expired or covered, is the keeper of another |
| `PruneMeaning.PlanExactly` | daemon/src/changelog_translate.rs:1374-1448 | exactly the removable jobs over a month old go by age; of the removable jobs that one which stays outdoes, exactly the number beyond a hundred goes, none of which ended after one that may stay, each under a job with the most sources |
| `PruneMeaning.KeeperIsTheLast` | daemon/src/changelog_translate.rs:1401-1411 | of several keepers with the most sources it is the last of the snapshot |
| `PruneRuns.FinishedIsStable` | daemon/src/changelog_translate.rs:536-793 | requests, replies, restarts and time leave a finished hot job as it is |
| `PruneRuns.DaemonHolds` | daemon/src/changelog_translate.rs:1655-1696 | through a scan in batches, a plan from the stale snapshot and deletions with the gate free in between, each of which may crash between archive and unlink, the invariants hold and unplanned finished jobs stay intact |
| `PruneRuns.KeeperSurvives` | daemon/src/changelog_translate.rs:1607-1696 | a job deleted as covered is eligible and strictly covered at that moment, and its keeper stays in the hot ledger, unchanged and still covering it, in every state of that clean-up run and in the one it ends or crashes in |
| `Canonical.PlanInput` | daemon/src/changelog_translate.rs:877-919 | the newest sections that fit the cap are included whole, the rest omitted in order; only an oversized first section is cut, at the cap |
| `Canonical.Utf8IsShortest` | daemon/src/changelog_translate.rs:962-977 | the length written before a body counts for each character the fewest bytes UTF-8 has room for it in |
| `Canonical.CanonicalDecodes` | daemon/src/changelog_translate.rs:962-977 | whatever the bodies contain, a decoder recovers the prompt version, every setting and every section from the canonical text |
| `Canonical.CanonicalIsInjective` | daemon/src/changelog_translate.rs:962-977 | two different requests with one-line header fields never share a canonical text |
| `CanonicalCollisions.ModelsCollideExactly` | daemon/src/changelog_translate.rs:962-977 | over all requests whose other settings come from the daemon's tables, two different ones with models m and n share a canonical text if and only if one model is the other, a line break, the rest of a header, whole sections, and the beginning of a section long enough to reach past it |
| `CanonicalCollisions.TextsDetermineRequests` | daemon/src/changelog_translate.rs:962-977 | as long as neither model overruns the other in that way, equal texts mean equal requests |
| `CanonicalCollisions.OneLineModelsAreSafe` | daemon/src/changelog_translate.rs:832-865 | models of one line never collide, and no model collides with itself |
| `CanonicalCollisions.LineBreaksCollide` | daemon/src/changelog_translate.rs:962-977 | for every request with one-line header fields and one section whose body carries what may follow a model, there is another request, different only by a model with line breaks and what follows from it, that has the same text |
| `Canonical.FingerprintDeterminesPlan` | daemon/src/changelog_translate.rs:979-987 | with a hash that never collides, one fingerprint stands for one scope and one source list |
| `Canonical.ScopeIsInjective` | daemon/src/changelog_translate.rs:1060-1065 | a job's scope gives back all its settings, whatever the model contains, as kind, language and effort come from closed tables |
| `Canonical.CoverageIsByText` | daemon/src/changelog_translate.rs:1067-1084 | a job that covers a request was made with exactly its settings and from exactly the requested text of each requested version |
| `ObModel.CurrentConversation` | scripts/ob_store.py:182-186 | the newest conversation of the project that is not retired, or none |
| `ObStore.Store.BindUrl` | scripts/ob_store.py:222-240 | the statements of a bind, in order, reach the specified tables or the specified error |
| `ObStore.Store.Submit` | scripts/ob_store.py:246-265 | an acceptable new key becomes one pending row; a known key must come with the recorded question and source and changes nothing; every other input is refused with the tables as they were |
| `ObStore.Store.Link` | scripts/ob_store.py:267-286 | links a conversation no other project owns to a project that has none and is not busy; each refusal comes in order, a constraint its statements broke would be rolled back and reported as owned already |
| `ObStore.Store.Claim` | scripts/ob_store.py:295-303 | takes the oldest claimable row and only that; nothing exactly when the queue waits or nothing can be claimed |
| `ObStore.Store.Finish` | scripts/ob_store.py:305-321 | records an answer under the claim's token, binds the url, adds the turn; any error rolls all of it back |
| `ObStore.Store.RememberUrl` | scripts/ob_store.py:323-328 | binds and records a url without a token, or rolls back |
| `ObStore.Store.Recover` | scripts/ob_store.py:288-293 | every running row, and no other, becomes unknown and loses its token |
| `ObStore.Store.Migrate` | scripts/ob_store.py:133-143 | each project with a conversation gets a row with its answers counted as turns, started at its first answer; nothing else changes |
| `ObRuns.StepKeeps` | scripts/ob_store.py:222-353 | no transaction, linking included, breaks the tables or trips a UNIQUE constraint, and no conversation row changes project or url |
| `ObRuns.RunHolds` | scripts/ob_store.py:98-353 | over every run: at most one live conversation per project, projects.url is that conversation's, urls and keys unique, one held request per project, and no transaction of the run meets a UNIQUE violation |
| `ObRuns.UrlNeverChangesHands` | scripts/ob_store.py:222-240 | a url once owned by a project is owned by it in every later state |
| `ObRuns.LiveReplacedByRotation` | scripts/ob_store.py:222-240 | a project that has a live conversation keeps one, and only a job flagged rotate replaces it |
| `ObRuns.DoneIsFinal` | scripts/ob_store.py:305-321 | an answered row keeps status, answer, token and question through every run |
| `ObRuns.RunningIsFenced` | scripts/ob_store.py:305-344 | a running row's status, answer and token change only for its own token or by recovery |
| `ObRuns.HandBackIsFenced` | scripts/ob_store.py:330-344 | failing or requeueing acts exactly on the row running under that token: it takes the status asked for and keeps the rest, every other row stays, and only a quota failure makes the queue wait |
| `ObRuns.HandedBackClaimIsSpent` | scripts/ob_store.py:305-344 | after that the token does nothing more, except that an unknown row still takes its answer |
| `ObRuns.RetryReopens` | scripts/ob_store.py:346-353 | a retry succeeds exactly on a failed or quota-waiting row, and then the row can be claimed at once unless its project is held |
| `ObRuns.ResolveFreesTheProject` | scripts/ob.py:103-116 | a resolve succeeds exactly if confirmed and on an unknown row, and then the project is free and the row can be claimed |
| `ObRuns.LinkCatchesNothing` | scripts/ob_store.py:267-286 | the handler for a broken constraint in a link never runs: a link that passes the earlier tests succeeds exactly when no other project owns the url |
| `ObMeaning.ConstraintsExactly` | scripts/ob_store.py:98-132 | each INSERT and UPDATE is refused exactly if its row would share a key or url with another, and a link reports that as owned already |
| `ObMeaning.SubmitExactly` | scripts/ob_store.py:246-265 | a submit succeeds exactly on acceptable input whose key is new or on record with the same question and source, and then exactly that question and source are on record under it: already, with nothing changed, or as one new pending row |
| `ObMeaning.AnswerIsToTheQuestion` | scripts/ob_store.py:246-265 | after a successful submit, in every later state of any run, the row of its key asks that question for that source, so its answer is the answer to it |
| `ObMeaning.BindExactly` | scripts/ob_store.py:222-240 | a url is refused exactly if the project is having another conversation and the request does not rotate, or if it is another project's; else the old conversation is retired, the url's goes on or is a new row, and projects.url follows |
| `ObMeaning.FinishExactly` | scripts/ob_store.py:305-321 | an answer is taken exactly if it has text and a chat url its project may have, for a row unknown or running under that token; then it is the row's answer, its url bound and one turn counted |
| `ObMeaning.FinishRefusesExactly` | scripts/ob_store.py:305-321 | an answer that is not taken is told the first thing that stands against it |
| `ObMeaning.RememberExactly` | scripts/ob_store.py:323-328 | a url is remembered exactly if its project may have it, and only the row's url and the binding change |
| `ObMeaning.LinkExactly` | scripts/ob_store.py:267-286 | a link is made exactly for a project without another url and without a request out, to a url no other project has; then the project is having that conversation |
| `ObMeaning.ClaimExactly` | scripts/ob_store.py:295-303 | the row claimed is the oldest, by creation time and then id, that waits in a project with nothing out, once the queue need not wait; only its status, token and error change |
| `ObMeaning.RecoverExactly` | scripts/ob_store.py:288-293 | after a restart each running row is unknown and without its token, and every other row is as it was |
| `ObMeaning.HandBackExactly` | scripts/ob_store.py:330-344 | a failure or requeue changes exactly the row running under the token, to the status asked for and with the reason given; after a quota failure the queue waits 1800 seconds |
| `ObMeaning.RetryExactly` | scripts/ob_store.py:346-353 | exactly a failed or quota-waiting row is retried, as pending and without its error, and the queue goes on |
| `ObMeaning.ResolveExactly` | scripts/ob.py:103-116 | exactly an unknown row is resolved, if that is confirmed, as pending and with that noted |
| `ObMeaning.RotationIsDueExactly` | scripts/ob_store.py:189-201 | a rotation is due exactly if the conversation the project is having has the set number of turns or the set age, where zero switches that off |
| `ObMeaning.RequestedRotationIsDue` | scripts/ob_store.py:203-212 | a requested rotation is due at once whatever the age, and no other project's is more or less due than before |
| `ObMeaning.MarkExactly` | scripts/ob_store.py:214-220 | only a waiting or running request can be marked to rotate, and only that mark changes |
| `ObMeaning.UpgradeAdds` | scripts/ob_store.py:133-143 | a conversation the upgrade adds is its project's, live, counts one turn for each answer and starts with the first |
| `ObRuns.OneHeldPerProject` | scripts/ob_store.py:81-82 | in every reachable state at most one request of a project is running or unknown |
| `ObRuns.AnswerAddsOneTurn` | scripts/ob_store.py:305-321 | a completion adds exactly one turn, to the live conversation of the asking project that bears the answer's url |
| `ObRuns.AnswersAreRecorded` | scripts/ob_store.py:305-328 | from an empty store every row's url is its own project's, and every answered row holds an answer that is not only white space, and a url |
| `ObRuns.TurnsConserved` | scripts/ob_store.py:203-212 | turns of a project are never fewer than its answers, and equal them as long as nobody asks for a rotation |
| `ObRuns.MigrationStarts` | scripts/ob_store.py:133-143 | upgrading an older database reaches the invariant with every answer counted once |
| `ObRuns.ReopenIsIdle` | scripts/ob_store.py:133-143 | the upgrade finds nothing to do at any later open |
| `ObDelivery.StepKeeps` | scripts/ob_operator.py:112-261 | every step of worker, script, collector, operator and crash keeps: sends on record before they happen, may-have-sent journals accounted for, the worker's claim its own |
| `ObDelivery.SendsAreSeparated` | scripts/ob_operator.py:112-212 | two sends of one question have an operator's confirmation that it was not sent between them, over every interleaving |
| `ObDelivery.DeliveryIsAccounted` | scripts/ob_operator.py:74-90 | in every reachable world a journal in dispatching or sent belongs to a running, unknown or done request, and whatever went out is in its journal |
| `ObDelivery.UnknownWaitsForOperator` | scripts/ob.py:103-116 | unknown is left only by the confirmed resolve, to pending and with the journal set aside, or by a collected answer |
| `ObDelivery.UnsentStaysRetryable` | scripts/ob_operator.py:187-204 | a readable journal that stops before sending never ends in unknown: the row is pending again if the browser was busy, else failed |
| `ObDelivery.StepIsTransaction` | scripts/ob_operator.py:112-261 | what a step does to the tables is one of the store's transactions, or nothing |
| `ObDelivery.TablesStaySound` | scripts/ob_operator.py:112-261 | hence the store's invariant and url ownership hold while all parties interleave |
| `ObWorker.NothingIsLeftRunning` | scripts/ob_operator.py:178-212 | in every reachable world an idle worker has left no row running, and a busy one only the row it is on |
| `ObWorker.LaunchExactly` | scripts/ob_operator.py:112-150 | a script is started only for a running row that cannot have been sent and has no answer, marked to rotate if that is due, and nothing else changes |
| `ObWorker.LookExactly` | scripts/ob_operator.py:82-90 | a look gives the journal exactly if the file can be read and the store takes its url, and then records that url |
| `ObWorker.ResultExactly` | scripts/ob_operator.py:178-212 | the status a request is left in, for every journal, look and reason: done, unknown, pending or failed |
| `ObAnswers.RunTracked` | scripts/ob_operator.py:178-212 | in every reachable world a worker that has read a journal's url decides with that url the live conversation of its project, and a recorded answer has its url |
| `ObAnswers.AnswerReadEnds` | scripts/ob_operator.py:187-212 | a request whose recorded answer was read ends done exactly if the store takes it, failed exactly if not and the second look succeeds, unknown exactly if that fails too |
| `ObAnswers.AnswerUnreadEnds` | scripts/ob_operator.py:187-212 | one whose recorded answer was not read before an error, because the look failed or the error came first, ends failed exactly if the look after the error succeeds, else unknown |
| `ObAnswers.ReadAnswerIsTaken` | scripts/ob_operator.py:82-90 | once a look has succeeded, the store takes the recorded answer if and only if it is not blank |
| `ObAnswers.AnsweredFailsExactly` | scripts/ob_operator.py:187-212 | a request with a recorded answer ends failed if and only if the look after an error succeeds and none had succeeded before, or the answer is blank to the store |
| `ObAnswers.RefusedUrlIsUnknown` | scripts/ob_operator.py:82-90 | a url the store refuses makes both looks fail, so that request ends unknown |
| `ObAnswers.StrayedAnswerIsUnknown` | scripts/ob_store.py:222-240 | a run from the start to such a request: the question went out once, its answer is on record from another conversation, the store answers that the conversation changed, and it ends unknown |
| `ObAnswers.AnsweredCanFail` | scripts/ob_operator.py:205-212 | a run from the start to a request that ends failed with an answer on record that the store would have taken: the script saved it and ran out of time, so nothing was looked at before the error |
| `IssueClaim.CurrentClaim` | scripts/agm.py:1960-2055 | the loops over the comments compute the replay of the trusted rows in time and id order |
| `IssueClaim.ReconcileLabel` | scripts/agm.py:2069-2096 | the label is settled at the first of four readings in which label and claim agree, edited towards the claim before that, and given up exactly when all four disagree |
| `IssueOrder.ListingOrderDoesNotMatter` | scripts/agm.py:1967-1986 | the order in which the comments are listed does not change who holds the issue |
| `IssueOrder.NewCommentIsLast` | scripts/agm.py:1967-1986 | a later comment adds its row at the end, so an earlier reading is a prefix of the log |
| `IssueOrder.EarlierReadingIsPrefix` | scripts/agm.py:1967-1986 | after any number of later comments, listed in any order, the log of an earlier reading is a prefix of the new log, and replaying either is what the command sees |
| `IssueOrder.OrderExactly` | scripts/agm.py:1967-1986 | the log holds each trusted comment with a time once, by time, then id, then position |
| `IssueOrder.OutsiderIsIgnored` | scripts/agm.py:1971-1976 | a comment by an outsider, or without a readable time, adds no row |
| `IssueExclusion.ActiveSinceItsComment` | scripts/agm.py:1988-2038 | the claim in force took effect at its own comment and has been in force ever since: a losing claim never comes into force later |
| `IssueExclusion.LastIsLatestActivity` | scripts/agm.py:1988-2038 | its last activity is the latest of its start and every sign of life since: its bot's marks about it and rivals' refused attempts |
| `IssueExclusion.ConfirmedUntilEnded` | scripts/agm.py:1988-2038 | a confirmed claim is still in force at a later reading exactly when no row in between is a release naming it or none, or a rival's claim over 24 hours after its last activity |
| `IssueExclusion.NeverAgain` | scripts/agm.py:1988-2038 | a claim once ended is never in force again |
| `IssueExclusion.TwoConfirmedNeverOverlap` | scripts/agm.py:2414-2454 | two confirmed claims that have not been ended are the same claim |
| `IssueExclusion.RivalNeedsAnEnd` | scripts/agm.py:1988-2038 | a different claim is confirmed later only if some row in between ended the first |
| `IssueExclusion.LoserLeavesHolder` | scripts/agm.py:2405-2447 | neither a claim that lost when it was posted nor the release its bot posts for it later, whatever came in between, ends anyone else's claim |
| `IssueExclusion.ClaimConfirms` | scripts/agm.py:2365-2447 | a claim posted after a reading that allowed it, whatever landed in between, is confirmed exactly when the issue is free by then or held by someone else and stale by the comment's own time; a bot's new claim on its own stale one is not confirmed |
| `IssueExclusion.RefusedClaimRenews` | scripts/agm.py:1998-2034 | that refused claim and the release posted for it renew the bot's old claim, whatever else landed: for a day from the refused claim on, claiming again in the same scope answers already-claimed |
| `IssueExclusion.RefusedClaimIsActivity` | scripts/agm.py:1998-2034 | with nothing in between, the claim in force afterwards is the old one, its last activity that of the refused claim and its release |
| `IssueExclusion.ClaimRespectsHolder` | scripts/agm.py:2108-2115 | while a claim is fresh, claiming answers already-claimed to its bot in the same scope and a conflict to everyone else |
| `IssueExclusion.ReleaseEndsWhatItSaw` | scripts/agm.py:2349-2363 | a release that is posted ends the claim its reading saw, whatever landed in between, and no claim that has replaced it |
| `IssueCommands.ReleaseExactly` | scripts/agm.py:2293-2295 | a release is refused exactly while another bot's claim is fresh, has nothing to do exactly without claim and label, and else is posted with the id of the claim that was read |
| `IssueCommands.ReleaseEndsNoFreshRival` | scripts/agm.py:2349-2363 | a posted release ends, whatever landed since, only a claim its reading showed, and that one only if it was the bot's own or over a day without a sign of life |
| `IssueCommands.ClaimExactly` | scripts/agm.py:2261-2295 | the exact condition for each answer to a claim: closed, unclear label, conflict, already claimed, posted, taken over |
| `IssueCommands.TouchExactly` | scripts/agm.py:2298-2304 | the exact condition for each answer to a touch, and that it names the claim that was read |
| `IssueCommands.ClaimTakes` | scripts/agm.py:1999-2024 | a claim takes a free issue or one whose holder has shown no life for over 24 hours, and otherwise counts as a sign of life |
| `IssueCommands.ProgressShowsLife` | scripts/agm.py:2027-2036 | a progress comment by the holder or its child about this claim shows life at the time it names; any other does nothing |
| `IssueCommands.ReleaseEnds` | scripts/agm.py:2038-2050 | a release ends the claim it names, or any if it names none; by the holder about another claim it shows life |
| `IssueExclusion.LabelReleaseEndsNothing` | scripts/agm.py:2354-2358 | a release that saw only the label ends nothing claimed meanwhile |
| `IssueExclusion.TouchIsTheHolders` | scripts/agm.py:2298-2304 | touching is allowed exactly to the bot named in a fresh claim of the same scope; the child's name never passes |
| `IssueTouch.TouchIsActivity` | scripts/agm.py:2314-2335 | editing a progress comment of the claim still in force equals adding activity at that time |
| `IssueTouch.EditIsInert` | scripts/agm.py:1988-2038 | editing a progress comment that was not about the claim in force where it stands changes nothing |
| `IssueTouch.TakeoverSurvivesExactly` | scripts/agm.py:1988-2038 | when the edited comment's claim has ended since, a release stands, and a takeover stands exactly if it came more than a day after the edited activity too; otherwise the old claim is in force again |
| `IssueTouch.SurvivorIsUntouched` | scripts/agm.py:1988-2038 | when the end stands, the claim in force at the end of the log is the same as without the edit |
| `IssueTouch.EditCases` | scripts/agm.py:1988-2038 | those are all the cases of an edit |
| `IssueTouch.TouchCanUndoTakeover` | scripts/agm.py:2314-2335 | a touch allowed on the last second of a claim and a takeover allowed and confirmed a second later: the touch, landing last, puts the old claim back in force |
| `SseEvents.Events.Feed` | daemon/src/changelog_translate_stream.rs:52-88 | the loop drains complete lines and stops at the first failure, leaving exactly the specified state |
| `SseEvents.Events.Take` | daemon/src/changelog_translate_stream.rs:56-85 | one event updates text, model, stop, usage and done as specified, and a failure changes nothing |
| `SseEvents.CompleteStream` | daemon/src/changelog_translate_stream.rs:128-136 | chunks are fed until one fails or the message has stopped; an end without a stop is an error |
| `SseMeaning.ChunksDoNotMatter` | daemon/src/changelog_translate_stream.rs:52-88 | any cut of an input gives the text, model, stop, usage, done flag and pending tail of the whole, or the same first failure |
| `SseMeaning.ReportsTheEvents` | daemon/src/changelog_translate_stream.rs:59-85 | text is the deltas in order, each usage field its last known value since the last message start, stop and model the last given, done exactly if a message_stop came |
| `SseMeaning.CompletedStopsThere` | daemon/src/changelog_translate_stream.rs:128-136 | the client's outcome is the meaning of the chunks up to the first that fails or finishes, and no more |
| `SseMeaning.IndependentIffQuiet` | daemon/src/changelog_translate_stream.rs:128-136 | that outcome is independent of the cut if and only if every line after message_stop changes nothing |
| `SseMeaning.LateErrorDependsOnTheCut` | daemon/src/changelog_translate_stream.rs:128-136 | for every reader, an error event in the line after the end of the message makes the outcome depend on the cut |
| `SseLines.DataLine` | daemon/src/changelog_translate_stream.rs:57-59 | the event of a `data:` line is that of the JSON between the white space after the colon and that at the end |
| `SseLines.DataLineParts` | daemon/src/changelog_translate_stream.rs:57-59 | every line that starts with `data:` is of that form |
| `SseLines.OtherLines` | daemon/src/changelog_translate_stream.rs:57-58 | a line that is not UTF-8 fails the stream, and one that does not start with `data:` is passed over |
| `SseLines.FailsAtTheFirst` | daemon/src/changelog_translate_stream.rs:57-88 | a stream fails at its first line that breaks it, and reports each usage field's last value known before |
| `SseLines.BrokenOffReportsUsage` | daemon/src/changelog_translate_stream.rs:90-136 | a stream that ends before a message_stop is an error that reports the usage known by then |
| `WaitLog.Waiter.Take` | scripts/wait-log.py:89-119 | one read decides as a scan of all content so far, with the tail the longest run of clipped lines within both bounds |
| `WaitLog.Waiter.Keep` | scripts/wait-log.py:95-102 | the bounded deque stays the longest suffix within the line count and the byte budget |
| `WaitLog.Wait` | scripts/wait-log.py:66-124 | the polling loop returns the first decision as content builds up, restarting at a rotation |
| `WaitLog.DecisionIsFinal` | scripts/wait-log.py:89-119 | more content never changes a decision |
| `WaitLog.ReadSizesDoNotMatter` | scripts/wait-log.py:89-124 | without rotation the outcome is that of scanning everything read, line by line, whatever the read sizes |
| `WaitLog.RotationStartsOver` | scripts/wait-log.py:76-80 | after a rotation waiting goes on as if it started there |
| `WaitRecords.FirstRecordDecides` | scripts/wait-log.py:89-112 | the first line over 1 MiB or starting with what is waited for decides: in exit-prefix mode the result is the number up to 255 that the rest writes in at most three digits, and an invalid record if it writes none; in line-prefix mode it is 0 |
| `WaitRecords.NoRecordNoDecision` | scripts/wait-log.py:89-119 | without such a line there is no decision, unless the unfinished line is over 1 MiB already |
| `WaitRecords.TailExactly` | scripts/wait-log.py:95-102 | the tail kept is the last 65,536 bytes of each of the last lines, as many lines as the line count and 65,536 bytes in all allow |
| `ByteLines.LinesAreTheInput` | scripts/wait-log.py:89-91 | the lines and the unfinished rest are the input, and each line ends with its only byte 10 |
| `RustMask.MaskRust` | scripts/ci-crate-only-tests.py:12-58 | the in-place scanner computes the mask or the same error, for every source |
| `RustMask.BlockComment` | scripts/ci-crate-only-tests.py:21-31 | the loop finds the end of a comment with nested comments, or that it has none |
| `RustMask.QuotedString` | scripts/ci-crate-only-tests.py:37-48 | the loop finds the end of a string, an escape covering any character, or that it has none |
| `RustMaskLaws.MaskKeepsShape` | scripts/ci-crate-only-tests.py:12-58 | length and newlines are kept, every other character is the source's or a blank |
| `RustMaskLaws.MaskComposes` | scripts/ci-crate-only-tests.py:51-57 | the mask of a text is its mask up to a token boundary followed by the mask of the rest alone, errors included |
| `RustMaskLaws.MaskFailsAt` | scripts/ci-crate-only-tests.py:30-48 | masking fails if and only if a token of the text is unterminated, with that token's error |
| `RustMaskLaws.CodeOrBlank` | scripts/ci-crate-only-tests.py:51-57 | each position is code and unchanged, or inside one comment or literal and blank |
| `RustMaskLaws.VisibleIffCode` | scripts/ci-crate-only-tests.py:12-13 | a visible character shows through if and only if it is code |
| `RustMaskLaws.NestedCommentIsOneToken` | scripts/ci-crate-only-tests.py:21-31 | a properly nested block comment is blanked to its own end and what follows is masked alone |
| `RustMaskLaws.QuotedTextIsOneToken` | scripts/ci-crate-only-tests.py:37-48 | any text, escaped and quoted, is blanked whole |
| `RustMaskLaws.LineCommentIsOneToken` | scripts/ci-crate-only-tests.py:18-20 | a line comment is blanked up to its newline, whatever it contains |
| `RustMaskLaws.ApostropheIsLiteralOrCode` | scripts/ci-crate-only-tests.py:49-50 | a one-character literal is blanked; an apostrophe that closes nothing, as in a lifetime, stays code |
| `RustMaskLaws.RawIsOneToken` | scripts/ci-crate-only-tests.py:32-36 | a raw string with up to 255 hashes, byte and C strings included, is blanked up to the first quote followed by its number of hashes |
| `RustMaskLaws.CharLiteralExactly` | scripts/ci-crate-only-tests.py:49-50 | a character literal is exactly a character, an escaped character, two hexadecimal digits after x or a braced Unicode escape between apostrophes |
| `RustMaskLaws.CodeExactly` | scripts/ci-crate-only-tests.py:16-51 | a character is code exactly if no comment, string or character literal starts with it, and a character literal is blanked whole |
| `RustMaskLaws.UnclosedStringFails` | scripts/ci-crate-only-tests.py:37-48 | any text in one quote only, even one that ends in a backslash, is an unterminated string |
| `RustMaskLaws.UnclosedCommentFails` | scripts/ci-crate-only-tests.py:21-31 | comments of which one more is opened than closed are an unterminated comment |
| `RustMaskLaws.UnclosedRawFails` | scripts/ci-crate-only-tests.py:32-36 | a raw string whose quote and hashes never come is unterminated |
| `RustGate.CrateOnly` | scripts/ci-crate-only-tests.py:61-82 | the loops answer yes if and only if some gate is code, each gate that is code stands before a module that closes, and nothing outside those modules is suspicious; no answer exactly where masking fails |
| `RustGate.CloseBlock` | scripts/ci-crate-only-tests.py:72-78 | the loop finds where a module's block closes, or that it does not (`RustGate.BlockEndsAtItsBrace` says where that is) |
| `RustGate.BlockEndsAtItsBrace` | scripts/ci-crate-only-tests.py:72-78 | a block ends at the first point where the `}` since its start outnumber the `{` by its depth |
| `RustGate.CrateOnlyExactly` | scripts/ci-crate-only-tests.py:61-82 | the verdict is yes exactly if a `#[cfg` gate survived masking, each is followed by a module that ends, and the text with those modules blanked is not suspicious |

## Left out

- LedgerSystem.HourlyBudgetHolds: does not hold for a full half-open hour of actual starts; `LedgerHour.OverspendingRun` is a run that breaks it.
- LedgerMeaning.SendExactly: for a clock that does not run backwards between two readings of one reservation.
- LedgerSystem.SendsAreSpaced: for requests with at least one version; an empty one is never answered by coverage, so its attempts would count afresh once its job was archived.
- LedgerSystem.RunHolds: starts from a directory without readable ledger files and a clock that does not run backwards; the caps bound what the configuration may say during the run. One fingerprint stands for one plan throughout (`origin`), which holds while no configured model overruns another, as all models of one line do (`CanonicalCollisions.TextsDetermineRequests`), and the hash never collides.
- CanonicalCollisions.ModelsCollideExactly: the two requests may have any one-line versions, and bodies beyond the character cap of `plan_input`; two models of which neither overruns the other are safe for all requests all the same.
- PrunePlan.PlanPrune: a directory listing is taken to give each name once, also over the batches of one scan (`DistinctNames`).
- ObDelivery.SendsAreSeparated: assumes a script that stops with its worker; a browser script that outlives a killed worker and goes on after the operator's confirmation is not covered.
- IssueExclusion.ConfirmedUntilEnded: for an append-only log; edited comments are treated in `IssueTouch` instead.
- IssueTouch.TakeoverSurvivesExactly: for edits that write a time not earlier than the one they replace, as a touch does.
- ObAnswers.AnswerReadEnds: a transaction fails only with one of the store's own errors; a disk error of SQLite inside one is not modelled.
- WaitLog.ReadSizesDoNotMatter: line-prefix and exit-prefix mode; `--contains` also matches unfinished lines and is not modelled, nor is the text printed at the end (decoding, `--max-output`).
- Ledger: the HTTP views beyond which refusal they show, retry times of the budget overlays, language checks beyond a yes or no, the prompt text, automatic kicks and their retry timers.
- Ledger: `load_for_prune` checks for unknown future fields are one flag of a file; scheduling of the background task is an environment choice.
- OB store: `updated_at`, `retired_why`, the list and status reports, directory permissions, the credential patterns (a yes or no here), the once-per-process attempt set (each claim has a fresh token and is attempted once).
- OB delivery: the lock wait of 720 seconds, process groups and signals; a stop by signal is a crash.
- Issues: JSON and ISO parsing, the exact error texts, the label re-reading inside `claim` before a conflict is reported, the collision hint.
- Streams: connection, idle and total timeouts, HTTP status handling, the table of model limits.
- Rust gates: the regular expressions of `crate_only` are parameters; `owned_path`, which looks a file up in its parent module, is left out.
- Real input and output: SQLite, flock, HTTP, `gh`, git and processes appear only as atomic steps, parameters or environment choices.
- The delegation layers, route tables, installers, statistics scripts and the user interface, which would add easy members only.
