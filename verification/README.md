# Switchboard core: a verified model

Switchboard runs ingress for services whose workloads live on external processors. Its core package keeps shared
state in a replicated document store, submits deployments to the Acurast chain, decides among several relays which
one settles, and signs and hashes what it tells others. This project models the parts of that core whose
correctness is not visible in any single function, and proves what they promise.

Verify everything with `dafny verify dfyconfig.toml`.

## How it is organised

- `Basics`, `StableSort`, `Digits`, `Bytes`: options and results, stable sorting, decimal and byte notation.
- `JsonText`, `CanonicalJson`, `CanonicalText`, `Utf8`: JSON text over UTF-16 code units, its printer and a parser that
  inverts it; the two canonical forms `stableJson` and `canonicalJson`; what their texts tell; the bytes that are
  hashed.
- `ReplicatedStore`, `StoreConvergence`, `StoreRevisions`, `StoreLeases`, `JsonFileStore`: the document store as a
  class over a snapshot, what its log, revisions and leases promise over whole runs, and the file-backed store that
  refines it.
- `SubmitLoop`, `SubmitSafety`, `SubmitCauses`, `EnvStage`, `DeployBracket`: the hardened submit loop as interleaved
  steps (one step per callback, or per resumption after an `await`), what its outcomes go back to, the
  environment-variable stage that listens to it, and the wallet lock held around it.
- `WalletLock`, `WalletLockSafety`: the cross-process lock file among any number of processes, and exactly when it
  excludes.
- `Transcript`, `TranscriptStreams`: the grouped transcript writer over chunks of text, and what each stream shows.
- `Leadership`: settlement leadership, its order and its timetable.
- `Amounts`, `Revive`: decimal amounts, and the unit search with the ceiling quote.
- `Selection`, `SelectionMeaning`: choosing gateways and processors, in full and with early exit, and what the
  answers mean.
- `RouteId`, `Signature`: length-prefixed hash pre-images and low-s signatures.

Code that changes state in the source is a class here. Its methods are proved equal to step functions on values,
and the results about runs are proved about those functions. Clocks, random tokens, the order of `localeCompare`,
hashes and signature recovery are parameters.

## Where code and documentation disagree

- The submit loop is documented to resolve once the transaction is in a block. A handler that is suspended while
  it sets up the job-status subscription judges its in-block event only afterwards, so the timeout can come first
  (`SubmitSafety.InBlockCanTimeOut`); `SubmitSafety.InBlockResolvesIff` says exactly which in-block events resolve.
- The wallet lock is documented to serialise submissions, and its steal to have exactly one winner. Two waiters that
  found the same stale lock can both end up holding it (`WalletLockSafety.DividedStealBreaksExclusion`). Exclusion
  holds exactly as long as no steal removes a live call's lock (`WalletLockSafety.HarmlessStealsExclude` and
  `StealExcludesIff`), which is so if checks are undivided and owners prompt (`AssumedIsHarmless`). A `signAndSend`
  that is still running when the promise settles is not covered by the lock either
  (`DeployBracket.LockCoversSendIff`).

## Remarks

The amount formatter and the amount parser of the command line are not inverse on whole amounts, and nothing
promises that they are: text without a dot is in base units. `Amounts.RoundTripIff` says exactly which amounts are
read back.

The route-id pre-image uses one fixed domain, and for one domain the encoding is unambiguous. The domain has no
length of its own, though, so a second domain would have to be chosen with care: `RouteId.DomainsSeparateIff` shows
that two domains are kept apart exactly when neither is the beginning of the other.

## Model

| member | source | states |
|---|---|---|
| `CanonicalText.PolicyTextUnambiguous` | src/switchboard-core/src/ingress-quote.ts:286-298 | Two JSON values have the same policy text if and only if they are equal up to the order of object keys at every depth. |
| `Utf8.PolicyPreimageUnambiguous` | src/switchboard-core/src/ingress-quote.ts:277-279 | The same for the UTF-8 bytes that `policyHashFromJson` hashes: only equal policies give the hash the same pre-image. |
| `Utf8.PrintIsPaired` | src/switchboard-core/src/ingress-quote.ts:288-296 | Whatever the strings of a value hold, its text has no lone surrogate, so it can be encoded at all. |
| `Utf8.EncodeThenDecode` | src/switchboard-core/src/ingress-quote.ts:278-278 | UTF-8 of a text without lone surrogates decodes to that text. |
| `Utf8.EncodesAsPrescribed` | src/switchboard-core/src/ingress-quote.ts:278-278 | The exact bytes of a text of each of the four lengths. |
| `JsonText.ValueRoundTrip` | src/switchboard-core/src/ingress-quote.ts:286-298 | A parser of JSON text inverts the printer: the printed value is read back, order of keys included, and any text behind it that does not begin with a digit is left over untouched. Strings are UTF-16 code units with the escapes of RFC 8259 section 7 and well-formed `JSON.stringify` (lone surrogates escaped, pairs kept). |
| `JsonText.PrintThenParse` | src/switchboard-core/src/report-signing.ts:90-92 | Whole texts: parsing the printed value gives exactly that value, so printing is injective. |
| `JsonText.StringRoundTrip` | src/switchboard-core/src/ingress-quote.ts:288-296 | Quoted strings and keys read back, for every sequence of code units. |
| `JsonText.PrintIsCompact` | src/switchboard-core/src/ingress-quote.ts:286-298 | The text itself, in literal characters: `null`, `true` and `false`, a minus sign and digits, quoted strings, brackets with comma-separated items, braces with comma-separated members, and no white space. |
| `JsonText.EscapeTable` | src/switchboard-core/src/ingress-quote.ts:288-288 | Every escape of RFC 8259 section 7 and of well-formed `JSON.stringify`, code unit by code unit in numbers: the seven short ones, four lower-case hexadecimal digits for other controls and lone surrogates, and the unit itself otherwise. |
| `JsonText.BodyTable` | src/switchboard-core/src/ingress-quote.ts:288-288 | Strings are printed unit by unit, surrogate pairs as they are. |
| `CanonicalJson.StableIsPrintOfSorted` | src/switchboard-core/src/ingress-quote.ts:286-298 | `stableJson`, which sorts while it prints, is the print of the recursively sorted copy in code unit order. |
| `CanonicalText.CanonicalTextUnambiguous` | src/switchboard-core/src/report-signing.ts:90-113 | When the comparator separates the keys of the objects in `a`, signing texts are equal if and only if the values are equal up to key order, a bigint counting as the string of its decimal digits. |
| `CanonicalText.CanonicalTextIgnoresKeyOrderIff` | src/switchboard-core/src/report-signing.ts:108-112 | Signing text is independent of key order exactly when `localeCompare` separates the keys of every object at every depth; with one tie anywhere, some reordering changes the text. |
| `CanonicalJson.SortJsonIdempotent` | src/switchboard-core/src/runtime/gateway-upstream-admission.ts:223-241 | Sorting a sorted copy changes nothing, for every total preorder of keys. |
| `CanonicalJson.SameSortsAlike` | src/switchboard-core/src/runtime/gateway-upstream-admission.ts:236-240 | Values that differ only in key order have the same sorted copy, if no object has tied keys. |
| `CanonicalJson.SortsAlikeMeansSame` | src/switchboard-core/src/report-signing.ts:94-113 | The sorted copy loses nothing but key order: equal copies come from equal values, for any comparator. |
| `CanonicalText.TextTellsSortedCopies` | src/switchboard-core/src/runtime/gateway-upstream-admission.ts:219-221 | Equal signing texts come from equal sorted copies. |
| `CanonicalJson.NeverTied` | src/switchboard-core/src/ingress-quote.ts:294-295 | Code unit order separates any two keys, so no object is ever tied in `stableJson`. |
| `CanonicalText.UnitOrderIs` | src/switchboard-core/src/ingress-quote.ts:294-295 | The order of keys in policy text: a prefix comes first, and otherwise the key with the smaller code unit at the first difference. |
| `CanonicalText.CopiesAreOrdered` | src/switchboard-core/src/report-signing.ts:108-112 | The keys of every sorted copy stand in the order of the comparator. |
| `CanonicalText.BigintsStayApart` | src/switchboard-core/src/report-signing.ts:98-100 | A bigint is signed like the string of its decimal digits, and different bigints are signed differently. |
| `CanonicalText.LeavesStay` | src/switchboard-core/src/report-signing.ts:95-103 | Sorting leaves every other leaf as it is, and among those only equal values are the same. |
| `StableSort.SortIsStable` | src/switchboard-core/src/report-signing.ts:110-110 | The sort that all components share keeps tied elements in the order they came in, as `Array.prototype.sort` promises. |
| `StableSort.SortIsCanonical` | src/switchboard-core/src/ingress-quote.ts:294-295 | Without ties the sorted list depends only on which elements there are. |
| `ReplicatedStore.MemoryReplicatedDocumentStore.constructor` | src/switchboard-core/src/replicated-doc-store.ts:78-85 | The store starts from the parts of a snapshot it is given; missing parts start empty. |
| `ReplicatedStore.MemoryReplicatedDocumentStore.Get` | src/switchboard-core/src/replicated-doc-store.ts:87-90 | Answers the document if it exists and is not a tombstone. |
| `ReplicatedStore.MemoryReplicatedDocumentStore.List` | src/switchboard-core/src/replicated-doc-store.ts:92-97 | Answers all live documents, each once, sorted by id, whatever order the entries were made in. |
| `ReplicatedStore.MemoryReplicatedDocumentStore.Put` | src/switchboard-core/src/replicated-doc-store.ts:99-114 | New state and answer of a put, conflict included, as the specification `PutSpec` gives them for the old state. |
| `ReplicatedStore.MemoryReplicatedDocumentStore.Delete` | src/switchboard-core/src/replicated-doc-store.ts:116-134 | The same for a deletion, which leaves a tombstone with the old value. |
| `ReplicatedStore.MemoryReplicatedDocumentStore.NextSequence` | src/switchboard-core/src/replicated-doc-store.ts:185-188 | The sequence counter grows by one and is returned. |
| `ReplicatedStore.MemoryReplicatedDocumentStore.ChangesSince` | src/switchboard-core/src/replicated-doc-store.ts:136-141 | The feed is all and only the logged changes after the sequence number, in order of sequence; `ChangesSinceIsSuffix` makes it the tail of the log. |
| `ReplicatedStore.MemoryReplicatedDocumentStore.AcquireLease` | src/switchboard-core/src/replicated-doc-store.ts:143-162 | New state and answer of a lease request, with the error for a time to live that is not a positive integer. |
| `ReplicatedStore.MemoryReplicatedDocumentStore.ReleaseLease` | src/switchboard-core/src/replicated-doc-store.ts:164-171 | Removes the lease held by the token, or answers false. |
| `StoreConvergence.ReachableIsCoherent` | src/switchboard-core/src/replicated-doc-store.ts:99-134 | In every reachable store the live documents are the fold of the change log, sequence numbers are 1, 2, 3, …, and each revision generation is the number of logged changes of its id. |
| `StoreConvergence.StepKeepsCoherent` | src/switchboard-core/src/replicated-doc-store.ts:99-171 | Every call of the store, successful or refused, keeps that invariant. |
| `StoreConvergence.ChangesSinceIsSuffix` | src/switchboard-core/src/replicated-doc-store.ts:136-141 | The feed after k is exactly the log without its first k entries. |
| `StoreConvergence.ListingIsUnique` | src/switchboard-core/src/replicated-doc-store.ts:92-97 | In a reachable store, under a total order of ids, there is exactly one listing; the order in which entries were made does not matter. |
| `StoreConvergence.ListingShowsLive` | src/switchboard-core/src/replicated-doc-store.ts:92-97 | A listing shows all and only the live documents, each once, in the order of their ids. |
| `StoreConvergence.PollCatchesUp` | src/switchboard-core/src/replicated-doc-store.ts:136-141 | A replica whose copy is the fold of the log up to its cursor reaches the live documents with one poll. |
| `StoreConvergence.ReplicaConverges` | src/switchboard-core/src/replicated-doc-store.ts:99-141 | However calls (deletions and re-creations included) and polls interleave, one more poll brings an initially empty replica to the live documents of that moment. |
| `StoreRevisions.RefusalChangesNothing` | src/switchboard-core/src/replicated-doc-store.ts:265-277 | A refused put, delete, lease or release, and every read, leaves the whole snapshot as it was. |
| `StoreRevisions.PutWinsIffUnchanged` | src/switchboard-core/src/replicated-doc-store.ts:99-101 | A put that expects the revision read earlier succeeds after any run of calls if and only if the id was not changed in that run: no lost update, no ABA. |
| `StoreRevisions.DeleteWinsIffUnchanged` | src/switchboard-core/src/replicated-doc-store.ts:116-121 | The same for deletions, which also need an id that was written before. |
| `StoreRevisions.BlindWriteOnlyCreates` | src/switchboard-core/src/replicated-doc-store.ts:270-276 | Without an expected revision, a put succeeds exactly on a never-written id and a delete never does; tombstones count as written. |
| `StoreRevisions.AtMostOneWriterWins` | src/switchboard-core/src/replicated-doc-store.ts:265-287 | Of all writers in a run that expect the same revision of the same id, at most one succeeds. |
| `StoreRevisions.RevisionIsCurrentIff` | src/switchboard-core/src/replicated-doc-store.ts:279-287 | After any run the revision of an id is the same as before if and only if no change to the id was logged. |
| `StoreRevisions.StepOnDocument` | src/switchboard-core/src/replicated-doc-store.ts:99-134 | A call changes a document and its change count exactly when it is a winning write to that id. |
| `StoreRevisions.WinningWriteIsVisible` | src/switchboard-core/src/replicated-doc-store.ts:103-132 | A winning put shows exactly the new value under its id, a winning delete hides exactly its id; the revision is one generation further with the hash of sequence and value, leases stay, and the sequence number grows by one. |
| `StoreRevisions.ChangeMirrorsDocument` | src/switchboard-core/src/replicated-doc-store.ts:289-298 | A winning write logs exactly one change with the id, sequence, revision and time of its document; `deleted` is set and the value absent exactly for a deletion. |
| `StoreRevisions.RefusalSaysWhy` | src/switchboard-core/src/replicated-doc-store.ts:265-277 | When a put or delete is refused, in terms of the stored revision and the expected one, and that the error names the id, the expected and the actual revision. |
| `StoreRevisions.LeaseFailsIff` | src/switchboard-core/src/replicated-doc-store.ts:144-146 | A lease request fails exactly when its time to live is not a positive integer, and the error names it. |
| `StoreLeases.LeasesAreExclusive` | src/switchboard-core/src/replicated-doc-store.ts:143-162 | Over every run with a clock that never runs backwards, the grants of one name to different owners are disjoint in time; a grant lasts until expiry, release, or its owner's own renewal. |
| `StoreLeases.GrantedIffOthersEnded` | src/switchboard-core/src/replicated-doc-store.ts:143-171 | In every run of a store that started empty, with a clock that never runs backwards, a valid request is granted if and only if every earlier grant of the name to another owner has ended, by expiry, release or that owner's renewal. |
| `StoreLeases.SupersededReleaseIsHarmless` | src/switchboard-core/src/replicated-doc-store.ts:164-171 | Releasing with a token that no longer holds the lease answers false and changes nothing, at any later point of the run. |
| `StoreLeases.ReplacedTokenIsDead` | src/switchboard-core/src/replicated-doc-store.ts:143-171 | With fresh tokens, once a later grant of a name succeeded, the earlier grant's token can never release it. |
| `JsonFileStore.JsonFileReplicatedDocumentStore.Put` | src/switchboard-core/src/replicated-doc-store.ts:206-211 | Reload, in-memory put, and flush on success: file content, held snapshot and answer as `FileStep`. |
| `JsonFileStore.JsonFileReplicatedDocumentStore.Delete` | src/switchboard-core/src/replicated-doc-store.ts:213-218 | The same for deletions. |
| `JsonFileStore.JsonFileReplicatedDocumentStore.Get` | src/switchboard-core/src/replicated-doc-store.ts:196-199 | Reload and read: the answer comes from the file, whatever the object held. |
| `JsonFileStore.JsonFileReplicatedDocumentStore.List` | src/switchboard-core/src/replicated-doc-store.ts:201-204 | A listing of the store in the file. |
| `JsonFileStore.JsonFileReplicatedDocumentStore.ChangesSince` | src/switchboard-core/src/replicated-doc-store.ts:220-223 | The feed of the store in the file. |
| `JsonFileStore.JsonFileReplicatedDocumentStore.AcquireLease` | src/switchboard-core/src/replicated-doc-store.ts:225-230 | The same for lease requests: a refused lease is written out too, an invalid time to live is not. |
| `JsonFileStore.JsonFileReplicatedDocumentStore.ReleaseLease` | src/switchboard-core/src/replicated-doc-store.ts:232-239 | The same for releases: written out only when something was released. |
| `JsonFileStore.JsonFileReplicatedDocumentStore.Reload` | src/switchboard-core/src/replicated-doc-store.ts:241-257 | The held snapshot becomes the file's, or an empty one if there is no file. |
| `JsonFileStore.JsonFileReplicatedDocumentStore.Flush` | src/switchboard-core/src/replicated-doc-store.ts:259-262 | The file becomes the held snapshot. |
| `JsonFileStore.FileRefinesMemory` | src/switchboard-core/src/replicated-doc-store.ts:191-263 | Any sequence of non-overlapping calls of all seven kinds, through any number of store objects on one file that hold whatever stale snapshots, gives the replies of the same sequence on one memory store, and the file then shows that store's snapshot. |
| `JsonFileStore.CachesDoNotMatter` | src/switchboard-core/src/replicated-doc-store.ts:241-257 | What the objects hold in memory before a run influences neither replies nor file. |
| `JsonFileStore.ListingIsTheReply` | src/switchboard-core/src/replicated-doc-store.ts:201-204 | After any run from an absent file, the one listing an object may answer is the in-memory store's. |
| `JsonFileStore.UnflushedIsUnchanged` | src/switchboard-core/src/replicated-doc-store.ts:206-239 | A call that does not write the file has changed nothing (the converse fails: a refused lease is written out). |
| `JsonFileStore.FileTouchedIff` | src/switchboard-core/src/replicated-doc-store.ts:196-239 | Which calls write the file and which leave it as it was, absent or present, by kind of call and reply. |
| `SubmitLoop.Submission.constructor` | src/switchboard-core/cli/src/acurast-chain-submit.ts:215-222 | The loop starts with its timer armed and everything else open. |
| `SubmitLoop.Submission.Settle` | src/switchboard-core/cli/src/acurast-chain-submit.ts:232-246 | `finish`: first outcome only, with its tear-down. |
| `SubmitLoop.Submission.HandleEvent` | src/switchboard-core/cli/src/acurast-chain-submit.ts:248-260 | The part of `handleEvent` before the `await`, as a step of the machine. |
| `SubmitLoop.Submission.ResumeHandler` | src/switchboard-core/cli/src/acurast-chain-submit.ts:276-314 | The part after the `await`: keeps or cancels the subscription, then judges the event. |
| `SubmitLoop.Submission.Judge` | src/switchboard-core/cli/src/acurast-chain-submit.ts:284-311 | What a status event decides. |
| `SubmitLoop.Submission.ReportStatuses` | src/switchboard-core/cli/src/acurast-chain-submit.ts:261-275 | Progress reported by one job-status update, and its self-cancellation on assignment. |
| `SubmitLoop.Submission.OnTimer` | src/switchboard-core/cli/src/acurast-chain-submit.ts:222-230 | The timeout, as a step of the machine. |
| `SubmitLoop.Submission.OnSent` | src/switchboard-core/cli/src/acurast-chain-submit.ts:320-325 | The completion of `signAndSend`: keeps the subscription, or cancels it if the promise has settled. |
| `SubmitLoop.Submission.OnSendError` | src/switchboard-core/cli/src/acurast-chain-submit.ts:326-328 | A failed `signAndSend` settles the promise with its error. |
| `SubmitLoop.Submission.HandlerThrows` | src/switchboard-core/cli/src/acurast-chain-submit.ts:321-323 | A rejected set-up settles the promise with its error. |
| `SubmitLoop.Submission.OnJobUpdate` | src/switchboard-core/cli/src/acurast-chain-submit.ts:259-275 | A job-status update, as a step of the machine. |
| `SubmitSafety.SettlesAtMostOnce` | src/switchboard-core/cli/src/acurast-chain-submit.ts:215-330 | Over every interleaving: at most one settlement, exactly one once the timer has fired, the timer armed only while unsettled, `WaitingForMatch` reported at most once and before any other progress. |
| `SubmitSafety.FailureLeavesNothingOpen` | src/switchboard-core/cli/src/acurast-chain-submit.ts:232-246 | Once settled and with `signAndSend` completed, no transaction subscription is open; once failed and with all suspended handlers resumed, no job-status subscription is open. |
| `SubmitSafety.FirstDecisionWins` | src/switchboard-core/cli/src/acurast-chain-submit.ts:233-244 | The promise settles with exactly what the first decisive step of the run says, and stays open if there is none. |
| `SubmitCauses.JudgementTable` | src/switchboard-core/cli/src/acurast-chain-submit.ts:284-311 | In every reachable open state, an event that is judged settles the promise exactly so: a dispatch error fails it whatever the status, a block resolves it with the hash, usurped, dropped, invalid and finality-timeout each fail it with their own error, waiting and finalized leave it open. |
| `SubmitCauses.SettlementHasCause` | src/switchboard-core/cli/src/acurast-chain-submit.ts:222-330 | Over every run, in terms of its events alone: a promise resolved with a hash only if an event without dispatch error put that hash into a block, and each failure goes back to its own event, to the timer, or to an error thrown with that text. |
| `SubmitCauses.OpenIff` | src/switchboard-core/cli/src/acurast-chain-submit.ts:232-246 | Exactly what is open after any run: the transaction subscription from its hand-over until settlement, the job-status subscription from its set-up until a failure or an assignment, so that it outlives success as documented. |
| `SubmitCauses.StepReports` | src/switchboard-core/cli/src/acurast-chain-submit.ts:254-275 | Exactly what each step of a run reports: the first registration announces its jobs, an update tells of those jobs what its statuses say, in order, and nothing else reports. |
| `SubmitSafety.SettledStaysSettled` | src/switchboard-core/cli/src/acurast-chain-submit.ts:233-234 | No later step changes the outcome. |
| `SubmitSafety.StepKeepsSafe` | src/switchboard-core/cli/src/acurast-chain-submit.ts:215-330 | Every step keeps the invariant behind these results. |
| `SubmitSafety.InBlockResolvesIff` | src/switchboard-core/cli/src/acurast-chain-submit.ts:248-287 | In every reachable open state, an in-block event without dispatch error is sure to resolve the promise if and only if it carries no registration or job statuses are subscribed already; then it resolves at once, otherwise some continuation settles differently. So the documented "resolves once the extrinsic is in a block" holds exactly there. |
| `SubmitSafety.InBlockCanTimeOut` | src/switchboard-core/cli/src/acurast-chain-submit.ts:254-287 | A concrete run of the other case: the in-block event has arrived, its handler is still suspended, and the timeout wins. |
| `SubmitSafety.AssignmentEndsSubscription` | src/switchboard-core/cli/src/acurast-chain-submit.ts:268-273 | Once any update of any run has reported an assignment, no job-status subscription is open in any later state. |
| `EnvStage.EnvVarStage.BeginSubmission` | src/switchboard-core/cli/src/acurast-chain-submit.ts:393-399 | `setEnv` up to its first `await`: flag, timer and job-id check. |
| `EnvStage.EnvVarStage.OnStatus` | src/switchboard-core/cli/src/acurast-chain-submit.ts:424-448 | The wrapped status callback, as a step of the stage. |
| `EnvStage.EnvVarStage.OnTimer` | src/switchboard-core/cli/src/acurast-chain-submit.ts:442-444 | The timer callback, as a step of the stage. |
| `EnvStage.StartsAtMostOnce` | src/switchboard-core/cli/src/acurast-chain-submit.ts:393-448 | For every order of timer firings and of what any run of the submit loop reports: the submission starts at most once, with the first announced job id, never without one, and no timer survives the start. |
| `EnvStage.NeverDropped` | src/switchboard-core/cli/src/acurast-chain-submit.ts:428-446 | After any acknowledgement, the submission has started or exactly one timer is pending, due two minutes before the job starts. |
| `EnvStage.LoopAnnounces` | src/switchboard-core/cli/src/acurast-chain-submit.ts:258-260 | Whatever the submit loop reports in any run, its first report announces at least one job id and no later report announces again. |
| `EnvStage.UrgentStartsNow` | src/switchboard-core/cli/src/acurast-chain-submit.ts:430-438 | In every reachable stage, an acknowledgement that covers all replicas, or comes with no more than two minutes left, begins the submission at that very event with the first announced job id, unless it has begun before, and leaves no timer. |
| `EnvStage.EarlyAcknowledgementWaits` | src/switchboard-core/cli/src/acurast-chain-submit.ts:439-446 | In every reachable stage, an acknowledgement that does not cover all replicas, with more than two minutes left, begins no submission and leaves exactly one timer, due two minutes before the start. |
| `EnvStage.AdvanceKeepsConsistent` | src/switchboard-core/cli/src/acurast-chain-submit.ts:393-448 | Every step keeps: one submission or at most one correctly timed timer, never both. |
| `DeployBracket.Deployment.OnLock` | src/switchboard-core/cli/src/acurast-chain-submit.ts:450-450 | The resumption after asking for the wallet lock. |
| `DeployBracket.Deployment.SkipLock` | src/switchboard-core/cli/src/acurast-chain-submit.ts:450-450 | Without a way to ask, the submission goes ahead unlocked. |
| `DeployBracket.Deployment.OnBegin` | src/switchboard-core/cli/src/acurast-chain-submit.ts:452-456 | Building the extrinsic: the loop begins, or the failure goes through `finally`. |
| `DeployBracket.Deployment.OnSettled` | src/switchboard-core/cli/src/acurast-chain-submit.ts:452-458 | The resumption after the submit loop settled, entering `finally`. |
| `DeployBracket.Deployment.OnReleased` | src/switchboard-core/cli/src/acurast-chain-submit.ts:457-459 | The resumption after the release. |
| `DeployBracket.LockCoversSubmission` | src/switchboard-core/cli/src/acurast-chain-submit.ts:450-459 | Over every interleaving with the submit loop: while the loop exists and its promise is open, the lock is held; once the lock is given up, the promise has settled and there was one release. |
| `DeployBracket.EndsReleased` | src/switchboard-core/cli/src/acurast-chain-submit.ts:452-461 | A deployment ends with what its promise settled with; by then the lock was released exactly once, on success and failure alike, unless the lock itself failed. |
| `DeployBracket.EndingHasCause` | src/switchboard-core/cli/src/acurast-chain-submit.ts:450-459 | A failure of the lock or of building the extrinsic is reported with the very error that was met in the run. |
| `DeployBracket.LockCoversSendIff` | src/switchboard-core/cli/src/acurast-chain-submit.ts:450-459 | In every reachable state in which a deployment waits for its submission under the lock: the lock is sure to be held until `signAndSend` is over if and only if it is over already. |
| `DeployBracket.SendMayOutliveLock` | src/switchboard-core/cli/src/acurast-chain-submit.ts:450-459 | A concrete run in which the timeout fires during `signAndSend`: the lock is free while the transaction may still be sent. |
| `WalletLock.LockCall.TryCreate` | src/switchboard-core/cli/src/acurast-wallet-lock.ts:57-58 | One exclusive creation attempt. |
| `WalletLock.LockCall.WriteOwner` | src/switchboard-core/cli/src/acurast-wallet-lock.ts:59-61 | Writing the owner into the file that was created. |
| `WalletLock.LockCall.Stat` | src/switchboard-core/cli/src/acurast-wallet-lock.ts:92-98 | Age of the lock file: too old, young, or gone. |
| `WalletLock.LockCall.ReadOwner` | src/switchboard-core/cli/src/acurast-wallet-lock.ts:99-104 | Owner recorded in the lock file at that moment, if any. |
| `WalletLock.LockCall.Probe` | src/switchboard-core/cli/src/acurast-wallet-lock.ts:101-101 | Whether the recorded owner is alive, then stealing or waiting. |
| `WalletLock.LockCall.Wait` | src/switchboard-core/cli/src/acurast-wallet-lock.ts:80-87 | Deadline check and sleep. |
| `WalletLock.LockCall.Steal` | src/switchboard-core/cli/src/acurast-wallet-lock.ts:73-78 | Removing a stale lock. |
| `WalletLock.LockCall.Release` | src/switchboard-core/cli/src/acurast-wallet-lock.ts:63-66 | First call of the release function sets its flag; later calls do nothing. |
| `WalletLock.LockCall.Remove` | src/switchboard-core/cli/src/acurast-wallet-lock.ts:67-67 | Removing the lock file. |
| `WalletLockSafety.HarmlessStealsExclude` | src/switchboard-core/cli/src/acurast-wallet-lock.ts:55-89 | For any number of processes and calls, with crashes and any clock: as long as no steal removes a live call's lock, at most one live call is between creating and removing the lock file. |
| `WalletLockSafety.StealExcludesIff` | src/switchboard-core/cli/src/acurast-wallet-lock.ts:73-78 | That is exactly what it takes: in every state reached so, a steal and the thief's creation attempt leave at most one live owner if and only if no live call owns the lock when the file is removed. |
| `WalletLockSafety.AssumedIsHarmless` | src/switchboard-core/cli/src/acurast-wallet-lock.ts:73-106 | If no live owner outlasts `staleMs` and only crashes come between the staleness check and the removal, every steal is harmless. |
| `WalletLockSafety.MutualExclusion` | src/switchboard-core/cli/src/acurast-wallet-lock.ts:55-106 | Under those two assumptions, at most one live call is between creating and removing the lock file. |
| `WalletLockSafety.StepKeepsExclusive` | src/switchboard-core/cli/src/acurast-wallet-lock.ts:55-106 | Every step but a harmful steal keeps the invariant behind exclusion. |
| `WalletLockSafety.ReleaseDeletesOnlyOwnLock` | src/switchboard-core/cli/src/acurast-wallet-lock.ts:63-68 | Without harmful steals, the file a release removes is the one its own call created, and a second call of the release function changes nothing. |
| `WalletLockSafety.ReleaseFreesLock` | src/switchboard-core/cli/src/acurast-wallet-lock.ts:63-68 | The first release of a holder enables the removal, after which the file is gone and any other live call that is about to try obtains the lock with two steps of its own. |
| `WalletLockSafety.DividedStealBreaksExclusion` | src/switchboard-core/cli/src/acurast-wallet-lock.ts:73-78 | A concrete harmful steal: two calls find the same abandoned lock too old, both steal, and both own a lock afterwards; the comment that exactly one wins does not hold. |
| `WalletLockSafety.AttemptsAreBounded` | src/switchboard-core/cli/src/acurast-wallet-lock.ts:53-88 | A call makes at most ceil(maxWaitMs / pollMs) + 1 creation attempts, and one more for each lock it steals; it times out only after maxWaitMs. |
| `WalletLockSafety.AbandonedLockIsObtained` | src/switchboard-core/cli/src/acurast-wallet-lock.ts:55-106 | Progress: a call that finds the lock free, too old or left by a dead process, and is not disturbed, holds it after at most seven steps of its own. |
| `WalletLockSafety.DecisionTable` | src/switchboard-core/cli/src/acurast-wallet-lock.ts:73-106 | The whole decision of a waiting call by file age, recorded owner and clock: steal, look further, give up at the deadline, or sleep exactly one poll interval. |
| `WalletLockSafety.FailedWriteBlocks` | src/switchboard-core/cli/src/acurast-wallet-lock.ts:57-62 | A call that created the file but fails to write into it leaves it behind without an owner, so others steal it only for its age. |
| `Transcript.GroupedDeployTranscriptWriter.EmitLine` | src/switchboard-core/cli/src/output.ts:102-120 | Writes one line under the heading of its group. |
| `Transcript.GroupedDeployTranscriptWriter.Write` | src/switchboard-core/cli/src/output.ts:123-131 | Cuts the buffered text and the chunk into lines and keeps the unfinished rest. |
| `Transcript.GroupedDeployTranscriptWriter.Flush` | src/switchboard-core/cli/src/output.ts:132-139 | Writes every unfinished rest. |
| `Transcript.ChunkingDoesNotMatter` | src/switchboard-core/cli/src/output.ts:123-131 | Writing chunks leaves exactly the output, group state and buffers that writing their concatenation once leaves, from any state. |
| `Transcript.SecondFlushIsNoOp` | src/switchboard-core/cli/src/output.ts:132-139 | A flush empties every buffer; a second one changes nothing. |
| `Transcript.SplitIsTheCut` | src/switchboard-core/cli/src/output.ts:126-127 | A text is cut into the only lines and the only rest, none with a line break inside, that joined give the text back. |
| `Transcript.WriteAndFlush` | src/switchboard-core/cli/src/output.ts:98-141 | Chunks then flush: every line that the whole text consists of exactly once, in order, the unfinished rest included. |
| `TranscriptStreams.TranscriptReadsBack` | src/switchboard-core/cli/src/output.ts:98-141 | Reading the transcript back, headings and separators apart, gives exactly those lines, stripped of their carriage return and of the prefix if they are Switchboard's, blank ones as blank lines. |
| `Transcript.SessionIsWellHeaded` | src/switchboard-core/cli/src/output.ts:102-120 | However streams interleave, each written line stands under the most recent heading, and that heading is of its group. |
| `TranscriptStreams.StreamShowsOwnLines` | src/switchboard-core/cli/src/output.ts:98-141 | However streams interleave, flushes included, each stream shows exactly the lines of its own text, in order, and its buffer holds its own unfinished line. |
| `TranscriptStreams.OwnLinesAreTheText` | src/switchboard-core/cli/src/output.ts:123-131 | Between flushes those are the lines and the rest that the text written to the stream consists of, however it was cut into chunks. |
| `Leadership.ActiveUniqueRelayIds` | src/switchboard-core/src/relay-leadership.ts:80-91 | The active ids without duplicates: all and only those. |
| `Leadership.OrderIsPermutation` | src/switchboard-core/src/relay-leadership.ts:28-37 | The order lists every active id exactly once. |
| `Leadership.OrderIsByScore` | src/switchboard-core/src/relay-leadership.ts:28-37 | Of two relays in the order, the first has the smaller score under the seed, and with equal scores the smaller id. |
| `Leadership.OrderIsCanonical` | src/switchboard-core/src/relay-leadership.ts:28-37 | The order depends only on the set of active ids: not on list order, duplicates, weights or inactive entries. |
| `Leadership.OrderIsStable` | src/switchboard-core/src/relay-leadership.ts:28-37 | The order of a smaller membership is the larger one's order with the missing ids left out. |
| `Leadership.ElectionOutcome` | src/switchboard-core/src/relay-leadership.ts:39-52 | There is no leader exactly when no id is active, and a leader exactly when there is one, the grace is positive and the window end numeric. |
| `Leadership.ExactlyOneLeader` | src/switchboard-core/src/relay-leadership.ts:67-69 | At each instant exactly one id satisfies `isSettlementLeader`, and it is active. |
| `Leadership.Timetable` | src/switchboard-core/src/relay-leadership.ts:54-55 | Relay i leads exactly in its own grace period: the first from the beginning of time, the last forever. |
| `Leadership.HandOver` | src/switchboard-core/src/relay-leadership.ts:54-55 | From the window end on, each grace period hands the lead to exactly the next relay, until the last one has it. |
| `Leadership.ElectionTimetable` | src/switchboard-core/src/relay-leadership.ts:39-65 | The timetable of an election from its own window end and grace (300 seconds if none is configured), with the order, deadline and grace that it reports. |
| `Leadership.ElectionErrors` | src/switchboard-core/src/relay-leadership.ts:45-52 | An election that throws says why: the grace is checked first, then the window end. |
| `Leadership.LeadsIff` | src/switchboard-core/src/relay-leadership.ts:67-69 | A relay leads exactly if it is the leader that the election names. |
| `Leadership.IndexNeverDecreases` | src/switchboard-core/src/relay-leadership.ts:54-55 | Leadership moves only down the order. |
| `Leadership.SkewedClocksStayClose` | src/switchboard-core/src/relay-leadership.ts:54-55 | Clocks at most one grace period apart pick leaders at most one position apart. |
| `Leadership.PrimaryDeadline` | src/switchboard-core/src/relay-leadership.ts:63-63 | The first relay leads exactly until the advertised primary deadline, or always when it is alone. |
| `Leadership.RelaysAgree` | src/switchboard-core/src/relay-leadership.ts:28-65 | Two relays with the same active set, seed and grace, and clocks at most one grace apart, see the same order and leaders at most one position apart. |
| `Amounts.RoundTripIff` | src/switchboard-core/cli/src/proof-ingress-commands.ts:108-133 | Reading back a printed amount gives the raw amount exactly when it has a fractional part, or decimals is 0, or it is 0: whole amounts print without a dot and are then read as base units. |
| `Amounts.ParseFormatted` | src/switchboard-core/cli/src/proof-ingress-commands.ts:122-133 | What the printed form of any amount is read as. |
| `Amounts.ParseIsFloor` | src/switchboard-core/cli/src/proof-ingress-commands.ts:130-132 | For every unsigned `w.f`, parsing is the floor of the decimal value times 10^decimals; `w` or `f` may be empty. |
| `Amounts.FormatIsInjective` | src/switchboard-core/cli/src/proof-ingress-commands.ts:108-114 | Two amounts print alike if and only if they are equal. |
| `Amounts.PrintedShape` | src/switchboard-core/cli/src/proof-ingress-commands.ts:110-114 | The printed number: the whole part without superfluous zeros and, only if there is a fraction, a dot and the fraction without zeros at the end, each with its value. |
| `Amounts.SymbolFollows` | src/switchboard-core/cli/src/proof-ingress-commands.ts:115-115 | A space and the symbol follow the number. |
| `Amounts.ParseWithoutDot` | src/switchboard-core/cli/src/proof-ingress-commands.ts:127-129 | Text without a dot is a number of base units. |
| `Amounts.ParseSecondDot` | src/switchboard-core/cli/src/proof-ingress-commands.ts:130-132 | Of text with several dots only the first two parts count. |
| `Amounts.AcuIsTwelveDecimals` | src/switchboard-core/cli/src/output.ts:173-186 | `formatAcuUnits` prints a digit string as formatting with twelve decimals does. |
| `Amounts.AcuPassesThrough` | src/switchboard-core/cli/src/output.ts:174-176 | Anything but a plain digit string is shown as it is. |
| `Amounts.AcuRoundTripIff` | src/switchboard-core/cli/src/output.ts:177-185 | The printed ACU number reads back as the raw amount exactly when it is not a positive whole number of ACU. |
| `Digits.ShowThenValue` | src/switchboard-core/cli/src/proof-ingress-commands.ts:113-114 | The printed digits of a number denote that number. |
| `Revive.DeriveContractValuePerNativeUnit` | src/switchboard-core/src/revive.ts:47-64 | Doubling then bisection finds the unit exactly, with exactly 2·ceil(log2 unit) + 1 chain reads. |
| `Revive.QuoteReviveNativeCallValue` | src/switchboard-core/src/revive.ts:20-45 | Refuses exactly negative requests; otherwise the native amount is the least that covers the request, the excess is at least 0 and less than a unit, and the reported balances account for the request. |
| `Revive.CeilLog2Is` | src/switchboard-core/src/revive.ts:48-51 | The number of doublings is the ceiling of the binary logarithm. |
| `Revive.CeilingCovers` | src/switchboard-core/src/revive.ts:31-33 | Whole units plus one for any dust is the least cover. |
| `Selection.SelectOperatorCapacityMembers` | src/switchboard-core/src/operator-capability.ts:552-636 | The loop over reports and processors collects the members of the specification, with all their fields. |
| `Selection.SelectOperatorCapabilityCandidate` | src/switchboard-core/src/operator-capability.ts:461-550 | The early-exit loop returns the first candidate of the specification, with all its fields. |
| `Selection.MembersFromReport` | src/switchboard-core/src/operator-capability.ts:563-632 | One turn of the outer loop with all its guards. |
| `Selection.CandidateFromReport` | src/switchboard-core/src/operator-capability.ts:470-546 | One turn of the early-exit loop with all its guards. |
| `Selection.ExpandedReportProcessors` | src/switchboard-core/src/operator-capability.ts:645-669 | The nested loops with `seen` and `excluded` compute the expanded processors. |
| `Selection.FastSelectionRefinesFull` | src/switchboard-core/src/operator-capability.ts:461-636 | Without gateway filter and route-intent requirement, the candidate is the projection of the first capacity member, and there is none exactly when there are no members. |
| `Selection.SinkSelectionRefinesFull` | src/switchboard-core/src/operator-capability.ts:505-507 | With the route-intent requirement, the same holds for the reports that have a route-intent URL. |
| `SelectionMeaning.MembersAreAdmissible` | src/switchboard-core/src/operator-capability.ts:552-636 | Every member stands for a stored report of the input, its governing profile and an offered processor that meet every demand of the source, spelled out field by field (an authorised signer among them), and says of them exactly what the source says. |
| `SelectionMeaning.AdmissibleAreMembers` | src/switchboard-core/src/operator-capability.ts:552-636 | Conversely, every such triple of the input has its member in the listing. |
| `SelectionMeaning.CandidateIsAdmissible` | src/switchboard-core/src/operator-capability.ts:461-550 | There is a candidate exactly when some report of the input has such a processor (and a route-intent URL if required); it comes from a newest such report and says of it exactly what the source says. |
| `SelectionMeaning.ExpandedIntroduced` | src/switchboard-core/src/operator-capability.ts:645-669 | A report's processors stand in the order of the references that first reach them, with the address and manager of those references, and none is missing. |
| `Selection.MembersAreTheEligiblePairs` | src/switchboard-core/src/operator-capability.ts:552-636 | Members are all and only the pairs that the loops accept, newest report first, each with a free route slot. |
| `Selection.ReportHasNoDuplicates` | src/switchboard-core/src/operator-capability.ts:645-669 | One report contributes at most one member per processor id. |
| `Selection.ExpandedIds` | src/switchboard-core/src/operator-capability.ts:645-669 | A report's processors are exactly those some scope lists without excluding, each once. |
| `RouteId.DomainHash` | src/switchboard-core/src/proof-ingress/client.ts:34-41 | The loop hashes the domain followed by each part behind its four-byte little-endian length, and fails exactly when a part is 2^32 bytes or longer. |
| `RouteId.DeriveRouteIdFromSeparator` | src/switchboard-core/src/proof-ingress/client.ts:60-77 | The route id is that hash over the five encoded fields, and fails exactly when the class id needs more than two bytes or a field is too long. |
| `RouteId.PreimageDecodesIff` | src/switchboard-core/src/proof-ingress/client.ts:34-41 | The hashed bytes behind the domain decode to a part list if and only if they are its encoding: the two determine each other. |
| `RouteId.DomainsSeparateIff` | src/switchboard-core/src/proof-ingress/client.ts:34-41 | Two different domains never give the same hashed bytes, whatever the parts, if and only if neither is the beginning of the other. |
| `RouteId.HashedBytesDetermine` | src/switchboard-core/src/proof-ingress/client.ts:34-41 | For equal domains, and for domains of which neither begins another, the hashed bytes determine domain and parts. |
| `RouteId.Complete` | src/switchboard-core/src/proof-ingress/client.ts:34-41 | Any bytes at all begin the encoding of some parts, and what is missing can itself be supplied by encoded parts; this is why a domain collides with every longer one that begins with it. |
| `RouteId.RouteDecodesIff` | src/switchboard-core/src/proof-ingress/client.ts:60-77 | Separator, owner, hostname hash, class id and salt are recoverable from the pre-image, and nothing else decodes. |
| `RouteId.RoutePreimageIs` | src/switchboard-core/src/proof-ingress/client.ts:60-77 | The pre-image byte for byte: separator, owner, hostname hash, class id in two bytes and salt, in this order, each behind its four-byte little-endian length. |
| `RouteId.RouteDomainIs` | src/switchboard-core/src/proof-ingress/client.ts:69-69 | The domain in front is the text `proof-ingress/route-id/v1`. |
| `RouteId.RoutePreimageInjective` | src/switchboard-core/src/proof-ingress/client.ts:60-77 | Two routes have the same pre-image if and only if they are the same route. |
| `Signature.NormalizeSecp256k1Signature` | src/switchboard-core/src/runtime/gateway-upstream-admission.ts:177-209 | The candidate loop, with every error, computes the specification `Normalized`. |
| `Signature.NormalFormIsLow` | src/switchboard-core/src/runtime/gateway-upstream-admission.ts:192-205 | A normalised signature keeps r, has s at most N / 2 (the low-s rule of EIP-2) and v 27 or 28, and recovers to the expected address. |
| `Signature.NormalizingTwiceIsOnce` | src/switchboard-core/src/runtime/gateway-upstream-admission.ts:177-209 | Normalising a normalised signature gives the same bytes. |
| `Signature.TwinsNormalizeAlike` | src/switchboard-core/src/runtime/gateway-upstream-admission.ts:192-200 | A 65-byte signature and its twin (r, N − s, flipped v) normalise to the same bytes or fail with the same error. |
| `Signature.CompactTwinsNormalizeAlike` | src/switchboard-core/src/runtime/gateway-upstream-admission.ts:188-208 | The same for 64-byte signatures when the two parities recover different signers, with the exact condition for success. |
| `Signature.NormalizesIffGenuine` | src/switchboard-core/src/runtime/gateway-upstream-admission.ts:177-209 | If recovery ignores reflection of s, a 65-byte signature with 0 < s < N is accepted exactly when it recovers to the expected address as it stands. |
| `Signature.Outcome65` | src/switchboard-core/src/runtime/gateway-upstream-admission.ts:188-208 | Exactly what every 65-byte signature comes to, and which error it fails with. |
| `Signature.Outcome64` | src/switchboard-core/src/runtime/gateway-upstream-admission.ts:188-208 | Exactly what every 64-byte signature comes to: the even parity first, the odd one only if recovery gave another signer. |
| `Signature.RefusedBeforehand` | src/switchboard-core/src/runtime/gateway-upstream-admission.ts:182-190 | Other lengths are refused first, then an invalid expected address. |
| `Signature.LowFormIs` | src/switchboard-core/src/runtime/gateway-upstream-admission.ts:192-200 | The low form: r, s or its reflection, and v with the parity kept or flipped. |
| `Signature.CurveOrder` | src/switchboard-core/src/runtime/gateway-upstream-admission.ts:7-8 | The order of secp256k1 as its distance from 2^256, and its half, rounded down. |
| `Signature.SIsBigEndian` | src/switchboard-core/src/runtime/gateway-upstream-admission.ts:187-187 | s is read from bytes 32 to 63, most significant first. |
| `Signature.SerializedParses` | src/switchboard-core/src/runtime/gateway-upstream-admission.ts:196-200 | The serialised canonical signature reads back as r, s and v. |
| `Bytes.BeBytesThenValue` | src/switchboard-core/src/runtime/gateway-upstream-admission.ts:198-198 | Fixed-width big-endian encoding reads back. |
| `Bytes.BeValueConcat` | src/switchboard-core/src/runtime/gateway-upstream-admission.ts:187-187 | What stands first weighs more. |
| `Bytes.LeBytesThenValue` | src/switchboard-core/src/proof-ingress/client.ts:37-37 | Fixed-width little-endian encoding reads back. |

## Left out

- Command files, flag tables, Zod schemas, profile and environment merging, DNS hints, report assembly: wide and shallow.
- Network and chain access, ACME, Ledger, TLS probes: outside calls; the balance oracle of `Revive` has a stated contract instead.
- Hashing, signing and recovery: arbitrary functions; only their inputs and the canonical forms around them are modelled.
- JSON values: numbers are integers printed in plain digits (JavaScript prints an exponent from 10^21 on), and there is no `undefined`, `NaN` or fraction; a bigint makes `stableJson` throw, so it is excluded there by `Plain`.
- `sortJson` on keys that look like array indices: JavaScript moves them to the front when the object is rebuilt.
- Object keys and ids that name properties of `Object.prototype`: the maps of the model have no prototype.
- `JSON.parse` after `JSON.stringify` of a snapshot: the file of the model holds the snapshot itself; malformed files and I/O errors are not modelled.
- Interleaved writers on one store file: reload, change and flush are not one step in the source; the refinement is for calls that do not overlap.
- The copies made by `cloneJson`: values of the model cannot be aliased.
- Lease times: integers in milliseconds; an infinite or undefined time to live is not a value of the model.
- `SubmitLoop`: job-status updates delivered before the set-up of their subscription has been awaited (the callback would then use its own handle before it is defined); falsy rejection values (which `finish` would take for success), exceptions from progress callbacks inside job-status updates, and timer delays beyond 2^31 ms.
- `SubmitLoop`: how an error of `signAndSend` is classified for display; it is carried on as its text.
- `EnvStage`: what happens after the submission of the variables has begun (its deadline and its failure report).
- `DeployBracket`: bundling and upload before the lock is asked for; the lock appears as granted or refused, not as the file protocol of `WalletLock`.
- WalletLockSafety.MutualExclusion: rests on two assumptions, because without the first a slow owner is robbed by design and without the second it is false; the exact condition is that of `StealExcludesIff`.
- `WalletLock`: process ids are not reused within a run, and processes share one clock.
- `WalletLock`: other errors of file operations than an existing file, and the directory and file name of the lock.
- `Transcript`: line classification, prefix stripping and colours are functions of the line; multi-byte characters split across buffers.
- Leadership.OrderIsCanonical: requires that score and id together separate the active ids, as `localeCompare` may call different strings equal.
- `Leadership`: fractional or unsafe window ends, and how the seed text is joined.
- Amounts.ParseIsFloor: covers unsigned decimal text; signs, hexadecimal and white space are not modelled.
- Amounts.RoundTripIff: amounts are not negative.
- `Revive`: the chain is taken to answer with whole units and dust on top of a fixed base, with a unit of at least 1.
- `Selection`: dates are the milliseconds they parse to (no `NaN`).
- RouteId.DeriveRouteIdFromSeparator: class ids are not negative, and encoding a number that does not fit is an error as in the library it calls.
- Signature.NormalizeSecp256k1Signature: starts from the signature's bytes, so the hexadecimal reading is not modelled; the expected address is given as its checksummed form, or as invalid.
- Signature.NormalizesIffGenuine: takes the reflection law of the curve as a premise about recovery.
