# Verified models of the hard core

This project models, in Dafny, the parts of the repository whose correctness is hardest to see in one
function, and proves what they are for. Rows are maps, each locked or committed section is one step, and
time is a monotone count of milliseconds.

| module | what it models |
|---|---|
| `ClaimQueue` | the claim protocol both worker queues share: claims of queued and stale rows, burials, beats, landings, re-queues and crashes |
| `ArchiveJobs`, `StagedKeys` | the archive import queue over it; the staged object's lifetime under uploads that interleave |
| `BotMentions` | the X-bot mention queue over it: two producers, the pipeline's verdict, the response rules, the drain |
| `ReplyBudget` | the billed-reply ceilings: the spend tracker, its ledger seed, and runs with interruptions |
| `CatchUp` | the catch-up cursor in snowflake id space and the worker's schedule |
| `ReplyText` | the weighted reply cap |
| `CacheStore`, `TtlCache` | the TTL+LRU cache: its contents as a value, and the class that updates them in place |
| `EventSources`, `SnapshotFields` | the snapshot shape change and its inverse; what each yields, field by field |
| `RichTextHtml`, `RichTextReading` | the tree-to-HTML compiler, with an independent lexer; what its reader finds, against the tree |
| `Approvals`, `ApprovalPicker` | approvals and approval requests as one state machine; the picker against the write check |
| `SoftDelete` | soft delete and restore: one timestamp that encodes two facts |
| `SiteContours` | contour supersession against point-in-time lookup, and the rebuilt versions |
| `ConflictSeed` | the Wikidata fold and the name allocator |
| `Basics` | optional values, the code-point order on strings, set sizes |

Each service that updates rows in place is a class whose methods are proved against functions on values; the
theorems are about those functions, over every run. For the two queues a lemma per method shows that what it
does is a run of the protocol the theorems speak of (`BotMentions.DrainTurnIsOurRun`,
`ArchiveJobs.ClaimIsHonestRun`, `ArchiveJobs.LandingIsHonest`), and a whole drain pass is a run of the bot
whose reply ceilings are proved (`BotMentions.MentionQueue.DrainMentions`).

What the proofs found, following the code where its documentation says otherwise:

- The catch-up is complete when pulls are at most one interval apart and none leaves out, past its thousand, a
  mention not in the table; both are exact (`CatchUp.GapSafeIffWithinInterval`,
  `CatchUp.PullCompleteIffCovered`). Within one process the worker finds pulls due at least one interval
  apart, and each runs some time after it was found due, so nothing keeps a gap within the interval: a mention
  posted in the excess right after a pull, dropped by the webhook and overtaken by a delivered one, is lost
  for good (`CatchUp.DroppedThenOvertaken`, `CatchUp.LostForGood`).
- One staged key is meant to back one job, so that no job deletes an object another still reads. The enqueue
  checks and then inserts, without a lock or a unique constraint: that holds if and only if no other request
  for the key is between its check and its insert (`StagedKeys.CheckExact`), and
  `StagedKeys.TwoJobsOneObject` is a run on which it does not.
- The daily cap is documented as a bound on the requests a requester sends in a trailing day, and resolved or
  withdrawn ones keep counting; but accepting an invitation deletes the open requests that ask the invitee, and
  they stop counting. The cap holds up to the deleted rows (`Approvals.DailyCapHolds`), and as documented over
  every run whose deletions spare the last day's rows (`Approvals.DocumentedCapHolds`). Per acceptance, or
  erasure, that condition is exact (`Approvals.CapExact`): it survives if and only if the acceptance's delete
  matches no open request, less than a day old and of a requester still there, that asks the invitee.
  `Approvals.JoinsLiftTheCap` is a run on which it does not hold.
- The two snapshot functions are documented as inverses. The exact conditions are `EventSources.WellFormed`
  and `EventSources.Faithful`.
- The picker and the check agree on an exactly typed analyst under any collation that never sorts a name after
  its own extensions, case aside, as long as fewer than twenty names differ from theirs in case alone
  (`ApprovalPicker.OmittedIffRefused`). The repository sets no collation. A code-point one is such only while
  names are in lower case; usernames are stored as registered, and under that collation
  `ApprovalPicker.CodePointsCrowdOut` is a full list that omits an exact match the check would accept.
- The list is meant to come with the reason an exact match is left out. Usernames are unique by case, and the
  lookup behind the reason is not: with even one case variant the promise holds only when the analyst is listed,
  or no variant is (`ApprovalPicker.OmittedIffReasonShown`). When a variant is listed no reason is shown
  (`ApprovalPicker.TwinHidesReason`), and when none is, the reason may be the variant's
  (`ApprovalPicker.ReasonMayBeAnothers`).
- A key of the cache survives while fewer than `max_size` other keys are *touched*; counting only the keys
  set since is not enough (`CacheStore.ReadsCrowdToo`).
- Restoring a user brings back exactly what the ban hid if and only if no event the user had lost on its own
  bears the ban's own stamp (`SoftDelete.BanUndone`). A ban reads its user without a lock: of two overlapping
  ones the second stamps the user anew and not the events, and a restore returns none of what the first hid
  (`SoftDelete.LateBanExact`).
- Mutual exclusion in both queues needs its timing hypothesis exactly: a claim can put a second worker on a
  row as soon as one live, claimable run's stamp goes stale (`ClaimQueue.ExclusionNeedsFreshness`). The attempt
  budget and the end of every drain need no timing at all (`ClaimQueue.AttemptsCountClaims`,
  `ClaimQueue.BoundedTakes`, `ClaimQueue.DrainsEnd`).

The environment is a parameter or a free choice of each step: clocks, the X API, the engine that reads a
thread, storage, the importer, mail, credit, membership, audiences and which rows another service changed.

## Model

| member | source | states |
|---|---|---|
| `ClaimQueue.SmallEvents` | backend/app/services/archive_jobs.py:181-199 | what a beat, a re-queue and a crash move, and nothing else |
| `ClaimQueue.MutualExclusion` | backend/app/services/archive_jobs.py:119-199 | over every interleaving with fresh stamps, no two workers run one job, a live run's row is running, and no row is claimed past the budget |
| `ClaimQueue.ExclusionNeedsFreshness` | backend/app/services/archive_jobs.py:143-178 | the timing hypothesis is exact: a second worker can be put on a row if and only if some live run that may still be claimed has a stale stamp |
| `ClaimQueue.TerminalStays` | backend/app/services/archive_jobs.py:181-199 | a done or failed row keeps its status and contents for good, whatever beats land on it afterwards |
| `ClaimQueue.AttemptsCountClaims` | backend/app/services/bot.py:693-728 | over any run with crashes, re-queues and stale reclaims, and no timing hypothesis, a row's attempts are exactly its claims and never pass the budget |
| `ClaimQueue.BoundedTakes` | backend/app/services/archive_jobs.py:143-178 | over the same runs, a row is claimed or buried at most twice per attempt left, once more per worker on it, and once more if open |
| `ClaimQueue.TakesWhileFresh` | backend/app/services/archive_jobs.py:143-178 | with fresh stamps the bound is the attempts left themselves |
| `ClaimQueue.DrainsEnd` | backend/app/services/bot.py:769-797 | with nothing enqueued, and no timing hypothesis, the claims and burials of any run are bounded by what the table and the live workers had left |
| `ClaimQueue.FirstClaimable` | backend/app/services/archive_jobs.py:152-165 | the claim query: the oldest claimable row, or the proof that there is none |
| `ClaimQueue.ClaimIsARun` | backend/app/services/archive_jobs.py:143-178 | the claim loop, its burials and its claim, is a run of the protocol, so the run theorems apply to it |
| `ClaimQueue.JobLanded` | backend/app/services/archive_jobs.py:331-342 | one job from claim to landing leaves every other row as it was or terminal and spends an attempt |
| `ArchiveJobs.ArchiveQueue.Insert` | backend/app/services/archive_jobs.py:131-140 | the insert half of an enqueue: one new queued row, no key checked |
| `ArchiveJobs.ArchiveQueue.Enqueue` | backend/app/services/archive_jobs.py:119-140 | uninterrupted, a job is queued unless one already holds the staged key, and one key keeps backing at most one job |
| `ArchiveJobs.ArchiveQueue.Finish` | backend/app/services/archive_jobs.py:299-319 | a job finished without an error is done, with one failed, and no object but its own leaves storage |
| `ArchiveJobs.ArchiveQueue.ClaimNext` | backend/app/services/archive_jobs.py:143-178 | the oldest runnable job is claimed after burying the spent ones ahead of it; the owners mailed are those of the buried jobs, and every object deleted is one of theirs; nothing claimed means nothing claimable |
| `ArchiveJobs.ArchiveQueue.Beat` | backend/app/services/archive_jobs.py:181-199 | a beat re-stamps its job alone |
| `ArchiveJobs.ArchiveQueue.Process` | backend/app/services/archive_jobs.py:202-296 | the row is done with the import's counts and no error exactly when the job imports and the import returns, and else failed with its counts unmoved; with the mail, the report and the beats |
| `ArchiveJobs.WhyJobsFail` | backend/app/services/archive_jobs.py:213-241 | which jobs import, and the reason each other one fails, the first check counting |
| `ArchiveJobs.EndedRow` | backend/app/services/archive_jobs.py:299-308 | what ending a job sets and what it leaves |
| `ArchiveJobs.BuriedExactly` | backend/app/services/archive_jobs.py:160-176 | a buried job was open with its attempts spent, fails for that, and its owner is told if the account is still there |
| `ArchiveJobs.JobsStayTrue` | backend/app/services/archive_jobs.py:143-308 | over every interleaving of fresh runs, a job is done exactly when it finished without an error, failed exactly when it has one, and only a done job has counts |
| `ArchiveJobs.ArchiveQueue.DrainOne` | backend/app/services/archive_jobs.py:331-342 | one turn leaves terminal rows alone and spends an attempt, or finds nothing claimable |
| `ArchiveJobs.ArchiveQueue.RunOnce` | backend/app/services/archive_jobs.py:331-342 | the drain ends; what was claimable ends terminal and terminal rows are untouched |
| `ArchiveJobs.InsertIsHonest` | backend/app/services/archive_jobs.py:131-140 | an insert is one event of the queue's runs |
| `ArchiveJobs.LandingIsHonest` | backend/app/services/archive_jobs.py:299-319 | what a finish leaves of a running job is one event of the queue's runs |
| `ArchiveJobs.ClaimIsHonestRun` | backend/app/services/archive_jobs.py:143-178 | the claim loop is a run of the queue's own burials and its claim |
| `StagedKeys.KeysStayDistinct` | backend/app/services/archive_jobs.py:119-140 | over every run of interleaved checks and inserts in which no check finds another request for its key under way, one staged key backs at most one job |
| `StagedKeys.NeverDeletedUnderALiveRun` | backend/app/services/archive_jobs.py:143-319 | after any such run, nothing the queue deletes next is an object a live run works on |
| `StagedKeys.CheckExact` | backend/app/services/archive_jobs.py:129-138 | the exact condition, per check: keys stay distinct, and no object is deleted under a live run, over every later run of lone checks if and only if no other request for the key is between its check and its insert |
| `StagedKeys.TwoJobsOneObject` | backend/app/services/archive_jobs.py:129-138 | the failing run: two uploads of one key both pass the check, and a landing deletes the object under the other live run |
| `StagedKeys.EnqueueIsCheckAndInsert` | backend/app/services/archive_jobs.py:119-140 | the uninterrupted enqueue is a check and its insert |
| `BotMentions.InsertedRows` | backend/app/services/bot.py:629-661 | a batch queues exactly the ids that were missing, each with its own mention's new row, and moves no other row |
| `BotMentions.RedeliveryIsNoOp` | backend/app/services/bot.py:629-661 | a redelivered batch changes nothing |
| `BotMentions.DeliveriesCommute` | backend/app/services/bot.py:629-661 | two batches queue the same ids in either order, and delivering again changes nothing |
| `BotMentions.PayloadRoundTrip` | backend/app/services/bot.py:731-753 | a queued mention is read back from its stored payload unchanged |
| `BotMentions.WhoIsAnswered` | backend/app/services/bot.py:536-600 | who is answered and with what, in terms of what was read, written and drafted: a write or an opened request by a linked author; a refusal with its reason, unless the tag answers the bot; nobody else |
| `BotMentions.WhenEachLands` | backend/app/services/bot.py:397-491 | when a mention lands as the bot's own, inherited, without an account, as a request or as a refusal with which reason, over every reading, write and draft |
| `BotMentions.WhenWritten` | backend/app/services/bot.py:482-512 | when it lands created, updated, skipped or failed, and with what count |
| `BotMentions.LandedRow` | backend/app/services/bot.py:523-540 | what the ledger keeps of a landed mention |
| `BotMentions.PayloadReads` | backend/app/services/bot.py:731-753 | a payload is malformed exactly without its ids or handle, and what else it lacks reads as empty |
| `BotMentions.NewRowWaits` | backend/app/services/bot.py:629-661 | a queued row holds its mention and nothing else |
| `BotMentions.SelectJoins` | backend/app/services/bot.py:658-661 | the mentions returned are those inserted, in their order |
| `BotMentions.SelectOne` | backend/app/services/bot.py:658-661 | and of one mention, itself exactly when its post was inserted |
| `BotMentions.GapsJoin` | backend/app/services/bot.py:676-690 | the gaps are the new mentions of other accounts, in their order |
| `BotMentions.GapOfOne` | backend/app/services/bot.py:676-690 | and of one mention, its post exactly when another account wrote it |
| `BotMentions.MentionQueue.InsertNew` | backend/app/services/bot.py:640-660 | the statement returns exactly the ids it inserted, stamped within the call |
| `BotMentions.MentionQueue.EnqueueMentions` | backend/app/services/bot.py:629-661 | the mentions returned are those whose post was not in the table |
| `BotMentions.MentionQueue.CatchUp` | backend/app/services/bot.py:664-690 | after a pull the ids are those of the cursor theorem, old rows untouched, and each new mention by another account is a gap while the webhook is live |
| `BotMentions.MentionQueue.Claim` | backend/app/services/bot.py:693-728 | the oldest claimable mention is claimed after burying the spent ones ahead of it, whose payloads stay |
| `BotMentions.MentionQueue.ProcessClaimed` | backend/app/services/bot.py:543-615 | the row lands done with its verdict; exactly those to answer are answered, with their reply, when the budget allows; and the tracker notes exactly the reply that went out |
| `BotMentions.MentionQueue.Handle` | backend/app/services/bot.py:769-797 | a malformed payload fails its row, an error outside the pipeline re-queues it, anything else lands it |
| `BotMentions.MentionQueue.DrainOne` | backend/app/services/bot.py:769-797 | one turn touches no terminal row, spends an attempt, and on an error puts back only the claimed row |
| `BotMentions.MentionQueue.DrainMentions` | backend/app/services/bot.py:756-797 | the drain ends with everything claimable terminal, or stops at an error with one row re-queued; the hour it was seeded from and all it added hold no more replies than they did or than the cap; and the pass is a run of the bot whose ceilings are proved |
| `BotMentions.TurnIsABotRun` | backend/app/services/bot.py:543-615 | a turn, whether or not a post of it was lost, is a run of that bot, and the two ledgers count the same replies |
| `BotMentions.InsertIsABotRun` | backend/app/services/bot.py:629-661 | so is a delivered batch, during a pass or not |
| `BotMentions.InsertIsOurRun` | backend/app/services/bot.py:640-660 | a delivered batch is a run of the queue's enqueues |
| `BotMentions.ClaimIsOurRun` | backend/app/services/bot.py:693-728 | the claim loop is a run of the queue's burials and its claim |
| `BotMentions.TurnIsOurs` | backend/app/services/bot.py:523-540 | whatever a turn does to its row is one enabled event of the queue |
| `BotMentions.DrainTurnIsOurRun` | backend/app/services/bot.py:769-797 | a whole turn, from claim to landing, is a run of the queue while stamps are fresh |
| `BotMentions.MentionsStaySound` | backend/app/services/bot.py:523-540 | over every interleaving: done if and only if an outcome is set, no payload once done, an undone row holds a mention of its own post and author, and no two workers hold a row |
| `ReplyBudget.GestureBudget.Note` | backend/app/services/bot.py:202-204 | the tracker's whole new state after a reply |
| `ReplyBudget.CountedRows` | backend/app/services/bot.py:181-193 | a row counts exactly when it holds a reply, landed within the window and is the author's |
| `ReplyBudget.RunLosesOnlyByCuts` | backend/app/services/bot.py:566-600 | over any run, the posts of any hour and scope missing from the ledger are at most the attempts cut off after posting there and the one under way |
| `ReplyBudget.CeilingsHold` | backend/app/services/bot.py:181-204 | over any run, in every trailing hour the replies posted, overall and per author, are at most the cap plus those of the same hour and scope whose attempt was cut off before the ledger or is under way |
| `CatchUp.FetchesTheNewest` | backend/app/services/bot.py:664-690 | a pull returns at most a thousand ids, the newest, and leaves one out exactly when there are more |
| `CatchUp.PullsFrom` | backend/app/services/bot.py:618-621 | a pull starts one hour of ids behind the newest, at 1 at least, and nowhere on an empty table |
| `CatchUp.MissedOnlyEarly` | backend/app/services/bot.py:664-690 | after a gap, only mentions posted in its excess over the interval, or past the cap, can be missed |
| `CatchUp.PullCompleteIffCovered` | backend/app/services/bot.py:664-690 | a prompt pull is complete if and only if every mention past the newest thousand is in the table already |
| `CatchUp.PromptPullsMissNothing` | backend/app/services/bot.py:147-154 | for any deliveries, if pulls are at most an interval apart and so covered, after each every mention posted so far is in the table |
| `CatchUp.LostForGood` | backend/app/services/bot.py:618-621 | a mention the cursor has passed is never pulled again |
| `CatchUp.PastTheCapForGood` | backend/app/services/bot.py:664-690 | nor is one past the cap |
| `CatchUp.GapSafeIffWithinInterval` | backend/app/services/bot.py:147-154 | a gap is safe in every complete and covered world if and only if it is at most the interval |
| `CatchUp.DroppedThenOvertaken` | backend/scripts/run_import_worker.py:119-128 | for every longer gap, a run from an empty start to a complete world whose next pull leaves a dropped mention behind the cursor |
| `CatchUp.Schedule.Pass` | backend/scripts/run_import_worker.py:119-128 | within one process, pulls are found due at least an interval apart |
| `ReplyText.WithinReplyCap` | backend/app/services/bot.py:117-140 | the longest prefix within the cap, and the text itself if and only if it fits |
| `ReplyText.WeighsByTable` | backend/app/services/bot.py:100-108 | a character weighs one exactly when the table holds it |
| `ReplyText.LongestFittingUnique` | backend/app/services/bot.py:117-140 | the result is unique, idempotent, and the identity on texts that fit |
| `CacheStore.RunSound` | backend/app/cache.py:32-39 | over every run the size never exceeds the cap and keys are distinct |
| `CacheStore.Inclusion` | backend/app/cache.py:20-49 | over the same operations a smaller cache is a subsequence of a larger one, lags it by at most the caps' difference, and its hits are the larger's hits |
| `CacheStore.HitIsLastWrite` | backend/app/cache.py:20-30 | a hit is what an unbounded TTL map would return |
| `CacheStore.LivesFor` | backend/app/cache.py:32-34 | a write lives for the time given, or the default when none or zero is |
| `CacheStore.OrderIsLastTouch` | backend/app/cache.py:20-39 | the store order is exactly the last-touch order |
| `CacheStore.Retention` | backend/app/cache.py:20-49 | a just-touched entry survives while fewer than the cap of other keys are touched |
| `CacheStore.RecentWriteSurvives` | backend/app/cache.py:20-49 | a written key reads back until it expires while fewer than the cap of other keys are touched |
| `CacheStore.EvictedExactlyWhenCrowded` | backend/app/cache.py:36-39 | while evictions are the only losses, a key is gone if and only if the cap of other keys were touched since |
| `CacheStore.ReadsCrowdToo` | backend/app/cache.py:20-39 | counting writes alone fails: a run, for any three keys |
| `TtlCache.TTLCache.Get` | backend/app/cache.py:20-30 | a hit is promoted to most recent, an expired entry dropped, and the history extends by this read |
| `TtlCache.TTLCache.Set` | backend/app/cache.py:32-39 | the entry is the most recent, the oldest go past the cap, and the size stays within it |
| `TtlCache.TTLCache.Invalidate` | backend/app/cache.py:41-49 | exactly the entries under the prefix go, the rest keep their order |
| `EventSources.ChosenIsLeast` | backend/alembic/versions/fb4098ed6742_event_sources.py:387-391 | the capture tag a main source takes its kind from is the first by code point, Unknown last |
| `EventSources.SourcesSurvive` | backend/alembic/versions/fb4098ed6742_event_sources.py:448-493 | down and up again is the identity if and only if the snapshot is faithful, promoted links included |
| `EventSources.UpgradedSurvives` | backend/alembic/versions/fb4098ed6742_event_sources.py:372-493 | the same for every snapshot in the image of the upgrade |
| `EventSources.LegacySurvives` | backend/alembic/versions/fb4098ed6742_event_sources.py:372-493 | up and down again is the identity if and only if the legacy snapshot is well formed |
| `EventSources.SourcesSnapshot` | backend/alembic/versions/fb4098ed6742_event_sources.py:372-445 | the appending loop builds exactly the specified sources |
| `EventSources.LegacySnapshot` | backend/alembic/versions/fb4098ed6742_event_sources.py:448-493 | the downgrade computes the inverse the round-trip theorems are about |
| `SnapshotFields.PrimaryIs` | backend/alembic/versions/fb4098ed6742_event_sources.py:451 | the primary source is the first with media, or the first of all when none has any |
| `SnapshotFields.LegacyMain` | backend/alembic/versions/fb4098ed6742_event_sources.py:448-469 | for every snapshot, the URL, posting time, media and position of the downgrade are the primary's, there is media exactly when some source has it, and the graphic flag is any source's |
| `SnapshotFields.LegacyLinks` | backend/alembic/versions/fb4098ed6742_event_sources.py:452-493 | of the primary's links and then the others', the secondary URLs are the first ten distinct ones besides the source's, and the archives exactly the first snapshot of each URL kept, by URL |
| `SnapshotFields.LegacyRest` | backend/alembic/versions/fb4098ed6742_event_sources.py:464-477 | the free tags in order and then the primary's capture tag, and what is copied over |
| `SnapshotFields.KindsAndTags` | backend/alembic/versions/fb4098ed6742_event_sources.py:71-80 | the frozen table, both ways |
| `SnapshotFields.UpgradedSources` | backend/alembic/versions/fb4098ed6742_event_sources.py:372-445 | for every legacy snapshot, the sources of the upgrade and all their fields |
| `SnapshotFields.UpgradedKind` | backend/alembic/versions/fb4098ed6742_event_sources.py:387-401 | the kind of the main one is that of the capture tag first by name, Unknown last |
| `SnapshotFields.OtherTagsJoin` | backend/alembic/versions/fb4098ed6742_event_sources.py:436-438 | the other tags stay, in order |
| `SnapshotFields.OneOtherTag` | backend/alembic/versions/fb4098ed6742_event_sources.py:436-438 | and of one tag, itself exactly when it is not a capture tag |
| `RichTextHtml.TextHtml` | backend/alembic/versions/u9w1y3a5c7e9_rich_text_html.py:149-163 | the loop over the marks wraps the escaped text, first mark outermost |
| `RichTextHtml.HtmlLexes` | backend/alembic/versions/u9w1y3a5c7e9_rich_text_html.py:166-195 | in any context, the HTML of any node lexes to exactly its tokens, so no text or attribute is read as a tag |
| `RichTextHtml.DocumentLexes` | backend/alembic/versions/u9w1y3a5c7e9_rich_text_html.py:166-195 | lexing a whole document yields its token sequence |
| `RichTextHtml.TokensShow` | backend/alembic/versions/u9w1y3a5c7e9_rich_text_html.py:166-195 | the tokens nest, stay within the allowed tags and attributes, and show exactly the document's text |
| `RichTextHtml.DocumentPreserved` | backend/alembic/versions/u9w1y3a5c7e9_rich_text_html.py:149-195 | end to end: the emitted HTML parses, nests, is allowed, and shows the document's text |
| `RichTextReading.DocumentReads` | backend/alembic/versions/u9w1y3a5c7e9_rich_text_html.py:149-195 | reading the emitted HTML finds exactly what the JSON says: every element its nodes and marks name, links with their targets, images with theirs, and each character inside exactly the elements around it, outermost first |
| `Approvals.ResolvedStaysForGood` | backend/app/services/approval_requests.py:571-606 | a resolved request never reopens, its answer never changes, its id never comes back, and only an erasure removes it |
| `Approvals.NothingContradicts` | backend/app/services/approval_requests.py:498-606 | over every run, erasures included: no open request with its target's approval of the live version, one approval per version and attester, one open request per requester, target and event, and no request within the cooldown of a decline |
| `Approvals.GeolocatorsNeverReview` | backend/app/services/geolocator_credit.py:234-256 | over every run, nobody who is or was a geolocator of an event holds an approval of it, their own or an organization's, or an open request to approve it |
| `Approvals.ApprovesExactly` | backend/app/services/approvals.py:216-266 | an approval is stored exactly when the event is published, a named organization's reviewer is its member, the reviewer was never credited, the version is live and the same name has not approved it; and answers exactly the requests it received |
| `Approvals.WhyApprovalsFail` | backend/app/services/approvals.py:216-245 | each refusal on its own guard, in order |
| `Approvals.AsksExactly` | backend/app/services/approval_requests.py:513-568 | a request is filed exactly when published, credited, found, independent, admitted, not approved, not asked, not recently declined and under the cap |
| `Approvals.WhyTargetsFail` | backend/app/services/approval_requests.py:450-510 | each refusal of the target on its own guard, in order |
| `Approvals.WhyRequestsFail` | backend/app/services/approval_requests.py:513-548 | and those around it |
| `Approvals.DeclinesExactly` | backend/app/services/approval_requests.py:571-606 | a decline lands exactly on an open request of the event that the caller may answer |
| `Approvals.JoinsExactly` | backend/app/services/geolocator_credit.py:234-256 | what joining an event takes away, and nothing else |
| `Approvals.LeavesExactly` | backend/app/services/geolocator_credit.py:281-321 | what leaving withdraws, and nothing else |
| `Approvals.VersionsExactly` | backend/app/services/versions.py:225-235 | an event is published at its first version and each correction counts one more |
| `Approvals.QuietStepsExactly` | backend/app/services/geolocator_credit.py:145-232 | what invitations, deletions and erasures move |
| `Approvals.ApprovalsWereEarned` | backend/app/services/approvals.py:216-266 | over every run, each approval standing was placed by a step with those facts |
| `Approvals.RequestsWereEarned` | backend/app/services/approval_requests.py:513-568 | over every run, each request was filed by a step with its facts |
| `Approvals.AnswersWereEarned` | backend/app/services/approval_requests.py:571-606 | over every run, each answer was given by a step that may give it: an approval by the target, a decline by one who may answer, or the requester's departure |
| `Approvals.DailyCapHolds` | backend/app/services/approval_requests.py:430-447 | in every trailing day a requester creates at most the cap plus the requests whose rows a join or an erasure deleted |
| `Approvals.DocumentedCapHolds` | backend/app/services/approval_requests.py:430-447 | over any run whose joins and erasures delete no row of the last day whose requester is still there, a requester creates at most the cap in every trailing day |
| `Approvals.CapExact` | backend/app/services/geolocator_credit.py:234-256 | per join or erasure, the exact condition: the documented cap survives every later run that spares such rows if and only if this step deletes none of them |
| `Approvals.JoinsLiftTheCap` | backend/app/services/geolocator_credit.py:145-256 | a run with any number of one requester's requests in one day, one per event, each asked analyst then invited, within the ten, and joining |
| `Approvals.Reviews.RequestApproval` | backend/app/services/approval_requests.py:513-568 | the refusals in order, and otherwise exactly one new open row |
| `Approvals.Reviews.CheckTarget` | backend/app/services/approval_requests.py:450-510 | the target's refusals in order, with or without the audience |
| `Approvals.Reviews.DeclineRequest` | backend/app/services/approval_requests.py:571-606 | a decline of an open request addressed to the caller, and nothing else |
| `Approvals.Reviews.ApproveVersion` | backend/app/services/approvals.py:198-266 | the refusals in order, and otherwise one approval and the answered requests |
| `Approvals.Reviews.DeleteAsAdmin` | backend/app/services/approvals.py:269-295 | one approval goes and no request moves |
| `ApprovalPicker.FollowerRefusedOnlyByCap` | backend/app/services/approval_requests.py:169-192 | a target listed because it follows the requester is refused if and only if the daily cap is reached |
| `ApprovalPicker.EligibleExactly` | backend/app/services/approval_requests.py:330-346 | who can be listed, condition by condition |
| `ApprovalPicker.ListedExactly` | backend/app/services/approval_requests.py:342-346 | the list is the first twenty eligible, names that start with the text first and then by name |
| `ApprovalPicker.AdmitsExactly` | backend/app/services/approval_requests.py:170-181 | whom an audience admits |
| `ApprovalPicker.OmittedIffRefused` | backend/app/services/approval_requests.py:390-427 | under any such collation, with fewer than twenty case variants, the exact match is omitted if and only if the check refuses it |
| `ApprovalPicker.CodePointsPutPrefixesFirst` | backend/app/services/approval_requests.py:342-346 | an instance: over lower-case names, code-point order is such a collation and leaves no case variant |
| `ApprovalPicker.ReasonShown` | backend/app/services/approval_requests.py:371-427 | a reason is shown exactly when neither the analyst, nor a case variant, nor an organization of that slug is listed; it is the check's, of the analyst or a variant |
| `ApprovalPicker.ReasonIs` | backend/app/services/approval_requests.py:390-427 | whose reason is shown: the account's carrying the name, else the organization's carrying the slug |
| `ApprovalPicker.OmittedIffReasonShown` | backend/app/services/approval_requests.py:371-427 | the promise, omitted exactly when a reason is shown, holds if and only if the analyst is listed, or no variant and no organization of that slug is |
| `ApprovalPicker.TwinHidesReason` | backend/app/services/approval_requests.py:390-412 | the failing input: of two names that differ in case, one can be asked and the other is omitted without a reason |
| `ApprovalPicker.ReasonMayBeAnothers` | backend/app/services/approval_requests.py:400-427 | when both are refused the reason shown may be the other's |
| `ApprovalPicker.CodePointsCrowdOut` | backend/app/services/approval_requests.py:342-346 | the hypothesis is needed: sorted by code point, a directory of mixed-case names omits an exact match the check accepts |
| `SoftDelete.HeirIsEarliest` | backend/app/services/geolocator_credit.py:345-362 | an event passes to the earliest live active co-analyst, if there is one |
| `SoftDelete.LiveSplit` | backend/app/services/admin.py:711-743 | the user's live events are exactly those cascaded and those handed over |
| `SoftDelete.Moderation.SoftDeleteEvent` | backend/app/services/admin.py:421-447 | a live event takes the stamp, a deleted one keeps its own |
| `SoftDelete.Moderation.SoftDeleteUser` | backend/app/services/admin.py:689-760 | the counts returned are the events hidden and those handed over |
| `SoftDelete.Moderation.Restore` | backend/app/services/admin.py:763-795 | the count returned is the events brought back |
| `SoftDelete.StampsEncodeFlags` | backend/app/services/admin.py:421-795 | over any run with distinct stamps, overlapping takedowns and bans included while no late ban strands what an earlier one hid, an event is hidden if and only if it was taken down while live or is under its owner's ban |
| `SoftDelete.LateBanExact` | backend/app/services/admin.py:707-742 | of two overlapping bans, the late one keeps the encoding if and only if a restore just before it would bring nothing back; what the first hid, no restore then returns |
| `SoftDelete.RestoreReturnsTheCascade` | backend/app/services/admin.py:777-784 | a restore brings back exactly the events its ban hid |
| `SoftDelete.BanUndone` | backend/app/services/admin.py:763-795 | a ban and its undo leave the events as the hand-over did if and only if no event lost on its own bears the ban's stamp |
| `SiteContours.Supersede` | backend/alembic/versions/5b8d2e7f9c41_site_versions_full_state.py:87-97 | the bulk update reads the table as it was |
| `SiteContours.IntervalIsLookup` | backend/alembic/versions/5b8d2e7f9c41_site_versions_full_state.py:44-97 | a contour's interval holds an instant if and only if the lookup at that instant picks it, ties included |
| `SiteContours.ExactlyOneCovers` | backend/alembic/versions/5b8d2e7f9c41_site_versions_full_state.py:87-97 | from its first contour on, a source has exactly one contour in force |
| `SiteContours.ExactlyOneLive` | backend/alembic/versions/5b8d2e7f9c41_site_versions_full_state.py:98-104 | exactly one contour of a drawn source stays live, the latest |
| `SiteContours.ListingIsExact` | backend/alembic/versions/5b8d2e7f9c41_site_versions_full_state.py:45-57 | a version lists exactly the sources filed by its time, each once, in order |
| `SiteContours.ListedBefore` | backend/alembic/versions/5b8d2e7f9c41_site_versions_full_state.py:53 | the order of a listing |
| `SiteContours.RebuiltKeepsTheRest` | backend/alembic/versions/5b8d2e7f9c41_site_versions_full_state.py:58-72 | a rebuilt version keeps its identity, name and kind, with one entry per source listed |
| `SiteContours.UndrawnEntries` | backend/alembic/versions/5b8d2e7f9c41_site_versions_full_state.py:48-50 | an entry names no contour exactly when none was drawn by then |
| `SiteContours.RebuildSnapshots` | backend/alembic/versions/5b8d2e7f9c41_site_versions_full_state.py:38-72 | every stored snapshot is rewritten in place, keeping its name and kind |
| `SiteContours.RebuiltNamesTheContourInForce` | backend/alembic/versions/5b8d2e7f9c41_site_versions_full_state.py:44-72 | a rebuilt version names exactly the contour in force at its time |
| `ConflictSeed.YearOfDate` | backend/scripts/seed_conflicts.py:72-77 | a value has a year exactly when its first four characters are digits, and it is the number they write |
| `ConflictSeed.ReadsEachDate` | backend/scripts/seed_conflicts.py:82-95 | each date of a binding is read for itself |
| `ConflictSeed.FoldIsExtremes` | backend/scripts/seed_conflicts.py:82-104 | an item's years are the least start and the greatest end, or no end when any binding has none |
| `ConflictSeed.YearsIgnoreOrder` | backend/scripts/seed_conflicts.py:82-104 | the years do not depend on the order or repetition of the bindings |
| `ConflictSeed.FoldBindings` | backend/scripts/seed_conflicts.py:82-104 | the loop over the bindings computes the fold and the order items were first seen in |
| `ConflictSeed.FetchRows` | backend/scripts/seed_conflicts.py:65-105 | one row per item, under the name of its first usable binding, sorted by start year and name, none lost |
| `ConflictSeed.NamesAre` | backend/scripts/seed_conflicts.py:131-134 | the plain name is the first two hundred characters, the other leaves room for the year after it |
| `ConflictSeed.DecimalReads` | backend/scripts/seed_conflicts.py:133 | the year is written in its digits |
| `ConflictSeed.DecidesInOrder` | backend/scripts/seed_conflicts.py:128-137 | the plain name is taken when free, the dated one only when that is not, and the row skipped when neither is |
| `ConflictSeed.NamesSound` | backend/scripts/seed_conflicts.py:121-142 | the names given are pairwise distinct, disjoint from existing ones and at most 200 characters |
| `ConflictSeed.EveryRowOnce` | backend/scripts/seed_conflicts.py:121-142 | of the allocator's decisions: each row is exactly one of already present, inserted, or reported with both its names taken |
| `ConflictSeed.Allocate` | backend/scripts/seed_conflicts.py:121-142 | the loop decides each row against the names taken before it, and every row meets exactly one fate |

## Left out

- The routers, middleware, authentication, notifications, audit rows, logging and Sentry: plumbing around the modelled steps.
- The X API, syndication reads and the detection engine: an attempt's reading, writing and posting are given to `BotMentions` as one attempt's environment.
- The composition of reply texts: only the cap on them is modelled.
- `BotNotConfigured`: the catch-up without credentials only raises.
- Postgres: `FOR UPDATE`, `SKIP LOCKED`, `ON CONFLICT` and the advisory lock are taken as the atomicity they give.
- The database's collation: a parameter of the picker; other sorted names compare by code point. Case folds over ASCII letters only.
- The archive upload's key format and ownership check, and the expiry of staged uploads.
- TtlCache.TTLCache.Get: a stored null reads as a miss in the code; stored values are never null here. The lock makes each method atomic and is not modelled.
- ReplyBudget.CeilingsHold: assumes one drainer, as the worker runs; two drainers each seed a tracker that does not see the other's posts.
- ClaimQueue.MutualExclusion: that beats arrive in time is its hypothesis; the heartbeat thread's own timing is the environment.
- ClaimQueue.TerminalStays: under the same hypothesis; a landing or re-queue later than the stale window rewrites a row another worker may have ended, as the code does.
- BotMentions.MentionsStaySound: under the same hypothesis, since it includes exclusion.
- BotMentions.MentionQueue.DrainMentions: no producer inserts during the pass here; `ClaimQueue`'s runs and `BotMentions.InsertIsABotRun` cover that. A post that was lost is a choice of `BotMentions.TurnIsABotRun`, not of the method.
- ArchiveJobs.ArchiveQueue.Enqueue: is uninterrupted; `StagedKeys` takes its two halves apart.
- SoftDelete.Moderation.SoftDeleteUser: reads and writes in one step; the late write is a step of the run theorems only.
- ArchiveJobs.ArchiveQueue.Process: a beat moves the stamp; the progress counts and the estimate it also writes are not modelled, nor are the contents of the mails.
- EventSources.LegacySurvives: a snapshot is typed, so list elements that are not objects, which the code drops, and missing keys, on which it raises, do not occur; a null list is the empty list.
- The rest of that migration: the table moves, and the posting times read off status ids.
- The `nh3` sanitiser and its post-passes in the rich-text migration: foreign code. The lexer here is written for this proof and knows only tags, attributes and the entities `html.escape` writes.
- Approvals.JoinsLiftTheCap: only this run keeps the ten-geolocator limit, which the code counts over live accounts; the run theorems hold without it.
- Approvals.NothingContradicts: an erasure is a step that deletes any requests and approvals; that an erased reviewer's organization approval keeps its row without a reviewer, and that an event passes to another owner, are not modelled.
- The organizations' side of the picker's ranking, by name under its own limit of twenty: the check's agreement covers them, the rank does not.
- SoftDelete.StampsEncodeFlags: erasing users and events, and collections and sites with their own takedowns, are not steps; the manager roles the ban hands over are not modelled.
- The downgrade of the site versions, and the event-site links.
- The SPARQL query and the HTTP fetch of the conflict seed: bindings come with the item id cut out and the label stripped. Digits are ASCII.
- Search, pagination, wire schemas and the frontend.
