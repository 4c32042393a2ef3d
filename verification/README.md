# Watch protocols, bounded enumerations and the git object cache

A Dafny model of the `dynamic-config` store crates. Each store is followed by a loop that must
survive failures and must never hand its caller a document that is torn, stale, lost or repeated;
around those loops sit listings of whatever a server chooses to answer, a git object cache, and
printers whose output another parser reads back.

`dafny verify dfyconfig.toml` checks the whole project.

## How it is built

- **A watch loop** is modelled three times over. `Step` and `Run` say what one turn does to the
  loop's own variables, given every answer the store could be asked for in that turn; a method
  `Watch` is the loop itself, with the source's branches, and is proved equal to `Run`; and a
  `...Guarantees` module proves what a caller may rely on, for every run against a store that is
  honest but otherwise free to fail, delay, batch, reorder its work and be written to at any moment.
- **A bounded enumeration** (the git walk and byte budget, Redis `SCAN`, the S3 listing, Firestore's
  `:batchGet`) is a method with the source's loop, proved against a declarative condition: it
  succeeds if and only if the condition holds, and then its result is the specified one.
- **The git directory, the byte budget and the HTTP exchange** are classes whose methods change the
  fields the source changes. The exchange's lock makes what an operation does to the shared part one
  step, so a sequence of operations is any interleaving of the threads that hold the three handles.

`Documents.Merged` passes a single document through and hands two or more to `fold`, a parameter
about which nothing is assumed: parsing, merging and rendering belong to the engine. The callback is
`accepts`, its answer to its n-th call, likewise arbitrary.

## What is assumed of the outside

- etcd: a message with header revision `h` brings every event of the watched range from where the
  stream stood up to `h`; a message without a header brings none; a stream resumed at a revision
  starts there; a range read at a revision answers with the range as it was then. For one key,
  `EtcdAhead` says what becomes of the result when a header may run ahead of its events.
- Redis: commands run one at a time; notifications arrive in publication order and none is skipped;
  an `MGET` sees one instant, no earlier than the notification that woke the loop; `del` and
  `expired` are published only for a key that then holds nothing; and every change of a watched key
  publishes. The check at the door looks for the keyspace flag `K` alone (`lib.rs:1082-1105`), so a
  server whose event classes leave writes out passes it and is not a server the convergence result
  is about.
- Consul, for "nothing is missed" only: the index never goes backwards, is never zero, and moves
  whenever the subtree does.
- S3: a version has an ETag of its own.
- git: commits are distinct and the ref moves only forward, for the order of deliveries; an id says for
  good what its object is. Of the cache, of packs and of what a failed removal leaves, nothing is
  assumed for what is delivered. Where the cache is said to stay closed, a pack brings the whole of the
  commit it was asked for. The directory's own state is changed by one source at a time.

## Where the code and its comments differ

- Redis (`lib.rs:682-690`) says refusals at the door, notifications being off among them, are not
  reported; the two that come after a round trip are (`lib.rs:711-763`), and the model reports them.
- git `working.rs:57-59` says compaction never runs on a watch's idle tick; `once` compacts on every
  call (`lib.rs:682`). `GitCache.IdleTickCompacts`.
- git `lib.rs:992-998` calls `max_bytes` a bound on one file; the code bounds the whole read.
  `GitRead.ReadDocuments`.
- git `lib.rs:564-566` says a credential from a closure ends the watch when the fresh one is refused
  too; the loop carries on (`lib.rs:600-608`). `GitGuarantees.RenewableNeverEndsOnRefusal`.
- Consul `lib.rs:685-689` says the first answer is the value the caller already has. A key that is not
  there when the watch starts has none, `priming` stays set (`lib.rs:764`), and the first document ever
  written to it is taken for that value and not delivered.
  `ConsulGuarantees.FirstWriteIsTakenForPriming`, and exactly when in `ConsulGuarantees.CallerHasIff`.
- S3 `lib.rs:228-230` says sixteen keys a page reaches the whole budget; it does but for one shape,
  exactly 512 keys on 32 pages with an empty 33rd. `S3Listing.BudgetsFit`.
- Firestore `lib.rs:906-908` says a name outside the database is refused by comparison; a bare path
  that was asked for is taken for it. `FirestoreBatch.PathOfIff`.

## Two results worth knowing

- A compaction that stops halfway can leave a commit without its tree. The database then claims the
  commit, and while the ref stays there and the directory is within the bound, every fetch of it skips
  the transfer and every read of it fails (`GitCacheRuns.StoppedRemovalHidesACommit`,
  `GitCacheRuns.HiddenStaysHidden`). Failing is all a broken cache can do: whatever it lacks, what it
  answers with is the commit's own documents (`GitPartial.AnswersOnlyFresh`,
  `GitGuarantees.DeliversWholeCommits`). Nothing else that can fail in a fetch breaks the cache
  (`GitCache.KeepsClosed`, `GitCache.StaysClosedIff`), and the directories this cannot happen to are
  exactly those that are never compacted (`GitCacheRuns.RunStaysClosedIff`).
- A repository initialised whose marker could not be written is never compacted again
  (`GitCache.StaysOursIff`, `GitCache.UnmarkedOnlyGrows`).

## Model

| member | source | states |
|---|---|---|
| `EtcdWatch.Watch` | dynamic-config-etcd/src/lib.rs:733-975 | the loop, branch by branch, is the run of its turns; it ends only in an error |
| `EtcdWatch.Hand` | dynamic-config-etcd/src/lib.rs:938-965 | one batch under a key: every put in order, stopping at a value that is not text or a refusal |
| `EtcdGuarantees.BeginsIff` | dynamic-config-etcd/src/lib.rs:741-779 | in every run: refused at the door if and only if there is no format or a named list, and then nothing is ever asked or reported; otherwise begun if and only if the first stream came up at once or after one refresh, and else one report and nothing delivered |
| `EtcdGuarantees.ExactlyOnce` | dynamic-config-etcd/src/lib.rs:787-965 | across any number of recoveries the puts handed over are exactly the key's puts from the first header on, in revision order; a run that ends has handed over a prefix |
| `EtcdAhead.ExactlyOnceIff` | dynamic-config-etcd/src/lib.rs:790-850 | when a header may say more than its message brought, the puts are handed over exactly once if and only if no recovery came while a header was ahead of a put, and what is missing is exactly the puts in between |
| `EtcdGuarantees.HandsInOrder` | dynamic-config-etcd/src/lib.rs:938-965 | a batch is handed over from the front, none skipped or repeated |
| `EtcdGuarantees.StaysInStep` | dynamic-config-etcd/src/lib.rs:787-850 | from the first header on, where the loop would resume is where the server's stream stands |
| `EtcdGuarantees.PrefixTracksStore` | dynamic-config-etcd/src/lib.rs:869-936 | every delivery is the whole subtree as of the revision it carries, revisions strictly increase, and after each message the document held is the subtree at the last revision heard of if anything moved and anything is left |
| `EtcdGuarantees.RereadIsWhole` | dynamic-config-etcd/src/lib.rs:1065-1079 | a re-read that passes the key budget and decodes is the whole subtree at that revision, never a truncation of it |
| `EtcdGuarantees.RereadDelivers` | dynamic-config-etcd/src/lib.rs:890-933 | a batch adds the subtree at its own revision, or nothing when nothing is left there |
| `EtcdGuarantees.BatchGoesOnIff` | dynamic-config-etcd/src/lib.rs:890-933 | the watch survives a batch if and only if the re-read was served, the subtree folds, and the callback takes it |
| `EtcdGuarantees.KeyGoesOnIff` | dynamic-config-etcd/src/lib.rs:938-965 | a batch under one key is survived if and only if every put is text and accepted |
| `EtcdGuarantees.CallbackEndsIff` | dynamic-config-etcd/src/lib.rs:922-965 | in every run: it ends as the callback's refusal if and only if the callback refused the last document it was handed, it had taken every one before, and every one was text |
| `EtcdGuarantees.StreamEndIsAFailure` | dynamic-config-etcd/src/lib.rs:800-868 | a stream that ended, broke for something other than its token, or was cancelled ends the watch as a store failure, reported once, with nothing more delivered |
| `EtcdGuarantees.CountsAddUp` | dynamic-config-etcd/src/lib.rs:835-903 | tokens refreshed are exactly the refusals for an expired token that came under the cap, of the stream and of a re-read |
| `EtcdGuarantees.RangeTakenIff` | dynamic-config-etcd/src/lib.rs:1065-1079 | a range answer is used if and only if it holds at most 512 keys, all under the prefix and all text, and is then its keys and texts in order |
| `EtcdGuarantees.RecoveryIsBounded` | dynamic-config-etcd/src/lib.rs:783-855 | whatever the cluster does: at most 3 recoveries in a row, at most 4m + 4 refreshes for m messages, one report for an ending store failure and none for anything else |
| `EtcdGuarantees.GivesUpOnlyWhenItMust` | dynamic-config-etcd/src/lib.rs:801-855 | a turn without a message is survived if and only if the token had expired, was replaced, the stream was re-established, and the cap was not reached; it never changes what was delivered |
| `EtcdGuarantees.NoHeaderNoDelivery` | dynamic-config-etcd/src/lib.rs:885-888 | under a prefix nothing is delivered before the first header, so the guarantee's starting point loses nothing |
| `RedisWatch.Watch` | dynamic-config-redis/src/lib.rs:700-849 | the loop, branch by branch, is the run of its turns |
| `RedisGuarantees.BeginsIff` | dynamic-config-redis/src/lib.rs:709-763 | refused at the door if and only if there is no format or nothing named to watch; otherwise begun if and only if notifications are on and the subscription was made, and else one report |
| `RedisGuarantees.ReadDelivers` | dynamic-config-redis/src/lib.rs:818-847 | whatever failed before, a re-read with a connection kept or opened now, an answer, and a value for every key delivers the server's document of that instant, unless several keys made the same one last time, and reports nothing |
| `RedisGuarantees.FailedReadIsSurvived` | dynamic-config-redis/src/lib.rs:1108-1124 | a re-read that comes to nothing is reported once, drops the connection so that the next read opens one, delivers nothing, and the watch goes on |
| `RedisGuarantees.CallbackEndsIff` | dynamic-config-redis/src/lib.rs:838-849 | in every run: it ends as the callback's refusal if and only if the callback refused the last document it was handed, and it had taken every one before |
| `RedisGuarantees.NeverTorn` | dynamic-config-redis/src/lib.rs:765-847 | each delivery is the document of one instant of the server, later than the write that woke the loop; more than one key never yields the same document twice running |
| `RedisGuarantees.InstantsNeverGoBack` | dynamic-config-redis/src/lib.rs:773-848 | of any two deliveries the later is the document of an instant no earlier than the other's |
| `RedisGuarantees.Converges` | dynamic-config-redis/src/lib.rs:773-848 | once the queue is drained, the last re-read answered and every key holds something, the document last delivered is that of the values held now, under every interleaving |
| `RedisGuarantees.WritesAreRead` | dynamic-config-redis/src/lib.rs:773-848 | every write whose notification has been consumed is older than the latest re-read |
| `RedisGuarantees.HeldIsDelivered` | dynamic-config-redis/src/lib.rs:818-847 | what the latest re-read came back with is what was delivered last |
| `RedisGuarantees.QuietKey` | dynamic-config-redis/src/lib.rs:802-817 | skipping `del` and `expired` is safe: with no other notification outstanding a key that holds something held the same at the last re-read |
| `RedisGuarantees.EveryFailureReportedOnce` | dynamic-config-redis/src/lib.rs:775-838 | one report for each failed re-read and for a broken subscription, none otherwise |
| `RedisScan.Globbed` | dynamic-config-redis/src/lib.rs:1171-1183 | the loop that escapes a literal |
| `RedisScan.PatternMeansPrefix` | dynamic-config-redis/src/lib.rs:1033-1034 | Redis' matcher, classes and escapes included, accepts a key on the pattern sent if and only if the prefix is a prefix of it |
| `RedisScan.Scan` | dynamic-config-redis/src/lib.rs:1033-1079 | succeeds if and only if the cursor comes back to zero within 1000 rounds with every key under the prefix and at most 512 of them; then the keys, strictly sorted, each once; and which cursors it sent |
| `RedisScan.TakeRound` | dynamic-config-redis/src/lib.rs:1049-1069 | one round's check, sort, dedup and count, as set union |
| `RedisScan.CheckNeverFires` | dynamic-config-redis/src/lib.rs:1049-1057 | against a server that honours the pattern the check on the prefix cannot fail |
| `RedisScan.TidyingIgnoresOrder` | dynamic-config-redis/src/lib.rs:1059-1063 | the result depends on the set of keys answered, not on order or repeats |
| `ConsulWatch.Watch` | dynamic-config-consul/src/lib.rs:658-788 | the loop, branch by branch, is the run of its replies |
| `ConsulWatch.PairsOf` | dynamic-config-consul/src/lib.rs:1107-1173 | every entry decodes, folders aside, or the whole answer is refused |
| `ConsulGuarantees.TrimsLeadingSlashes` | dynamic-config-consul/src/lib.rs:1132-1135 | what the prefix is compared without is exactly its leading slashes |
| `ConsulGuarantees.EndsOnlyFor` | dynamic-config-consul/src/lib.rs:658-786 | in every run: refused at the door if and only if there is no format or a named list; ended by the callback if and only if it refused the last document it was handed, having taken every one before |
| `ConsulGuarantees.IndexIs` | dynamic-config-consul/src/lib.rs:717-723 | reply by reply: a failed query leaves the index, an answer sets it to the one it names or to zero if that is lower, and a delivery carries it |
| `ConsulGuarantees.FoldsWholeAnswer` | dynamic-config-consul/src/lib.rs:985-999 | a prefix answer ends the watch if and only if it is over the budget, holds an entry that cannot be used, or does not merge; is no document if and only if it is all folders; and is otherwise the merge of all its documents in order |
| `ConsulGuarantees.FoldsOneKey` | dynamic-config-consul/src/lib.rs:977-983 | under one key the document is the last entry's text, and any failure is a deleted key |
| `ConsulGuarantees.DeliversCollapsedAnswers` | dynamic-config-consul/src/lib.rs:697-786 | deliveries are the answered documents, consecutive equals collapsed, the first dropped, whatever indexes, failures and empty answers come between |
| `ConsulGuarantees.IndexOnlyResets` | dynamic-config-consul/src/lib.rs:697-786 | the index carried is the latest answered or zero, and it decreases only to zero, when the agent's went backwards |
| `ConsulGuarantees.ReportsAddUp` | dynamic-config-consul/src/lib.rs:697-786 | reports are failed queries plus empty answers plus one for the fold that ended the watch, which a fold ends if and only if it refuses |
| `ConsulGuarantees.OneKeySurvivesEverything` | dynamic-config-consul/src/lib.rs:971-985 | under one key nothing the agent answers ends the watch |
| `ConsulGuarantees.IndexIsBehindLatest` | dynamic-config-consul/src/lib.rs:921-953 | the index carried is never ahead of the answer the comparison was made from |
| `ConsulGuarantees.ParkedMeansCaughtUp` | dynamic-config-consul/src/lib.rs:683-786 | a query parked at the agent's current index means the document there is the one compared with; the caller has it, delivered last or from the start, if and only if it was not taken for priming |
| `ConsulGuarantees.CallerHasIff` | dynamic-config-consul/src/lib.rs:685-689 | the caller has the latest document answered, unless every document so far is alike and the first query was answered with none; nothing has been delivered if and only if every document so far is alike |
| `ConsulGuarantees.FirstWriteIsTakenForPriming` | dynamic-config-consul/src/lib.rs:762-766 | a failed first query and then a first document: it is compared with and parked on, and nothing is delivered |
| `ConsulGuarantees.ParkedMissesIff` | dynamic-config-consul/src/lib.rs:697-786 | whatever the index does, with every answer naming its index: a query is parked only at the latest answer's index, and sleeps through a change if and only if what the agent holds folds differently from the latest document answered |
| `S3Watch.Watch` | dynamic-config-s3/src/lib.rs:792-867 | the poll, branch by branch, is the run of its ticks |
| `S3Guarantees.EndsOnlyFor` | dynamic-config-s3/src/lib.rs:792-838 | in every run: refused at the door if and only if it cannot be watched; ended if and only if the callback refused the last document it was handed, having taken every one before |
| `S3Guarantees.DeliversEachVersionOnce` | dynamic-config-s3/src/lib.rs:812-867 | delivered versions strictly increase, a write between `HEAD` and `GET` comes once, and after an answered tick the caller's version is at least the one `HEAD` saw |
| `S3Guarantees.FailedGetIsRetried` | dynamic-config-s3/src/lib.rs:836-860 | a failed `GET` leaves the change to be delivered by the next answered tick |
| `S3Guarantees.RepeatsIffUntagged` | dynamic-config-s3/src/lib.rs:836-866 | a version is delivered again if and only if its `GET` named no tag and had seen a later version than the `HEAD` |
| `S3Guarantees.VersionsNeverDecrease` | dynamic-config-s3/src/lib.rs:820-866 | in every run, tags named or not, versions delivered never decrease, and the tag remembered is of a version no later than the caller's, an earlier one if and only if the last delivery's `GET` named no tag and had seen later than its `HEAD` |
| `S3Guarantees.RepeatsOnlyIf` | dynamic-config-s3/src/lib.rs:826-836 | a tick of any run delivers the caller's version again if and only if it was answered, the tag remembered is of an earlier version, and that version is still there |
| `S3Guarantees.EveryFailureReportedOnce` | dynamic-config-s3/src/lib.rs:820-867 | one report for each unanswered tick |
| `S3Listing.Listed` | dynamic-config-s3/src/lib.rs:989-1046 | succeeds if and only if the listing finishes within 32 pages, stays under the prefix and fits 512 documents; then exactly the keys that are not folders, in listing order; at most 32 requests and which tokens they carried |
| `S3Listing.ListsEverything` | dynamic-config-s3/src/lib.rs:989-1046 | from any store that pages through a list by the tokens it hands out, whatever its page sizes, a listing that finishes is every document of the list, in order |
| `S3Listing.BudgetsFit` | dynamic-config-s3/src/lib.rs:217-231 | with at least 16 documents a page before the last, the page budget refuses nothing the key budget allows, except exactly 512 documents on 32 pages and an empty 33rd |
| `S3Listing.BudgetsMissOneShape` | dynamic-config-s3/src/lib.rs:217-231 | that exception is a store that pages through 512 different keys by its tokens |
| `GitTree.CheckPathMeansProper` | dynamic-config-git/src/lib.rs:1130-1159 | a path passes if and only if no component is empty, `.` or `..` |
| `GitTree.Walk` | dynamic-config-git/src/fetch.rs:559-629 | terminates on every tree; succeeds if and only if every name is text, every path passes, everything is readable and at most 512 directories and 512 files are met; the result is the recursive listing, sorted; the prefix check never fires |
| `GitTree.TakeEntry` | dynamic-config-git/src/fetch.rs:562-618 | one entry: exactly when it is refused, and what it adds to the files found and to the directories pending |
| `GitRead.Under` | dynamic-config-git/src/fetch.rs:520-630 | a directory read lists, from the directory named, what the walk lists |
| `GitRead.ReadBlob` | dynamic-config-git/src/fetch.rs:423-490 | the text if and only if the path is a text file that fits what is left; over the limit, over what is left of it, a directory, a link and a submodule each their own refusal; what is taken off is the size of any file whose header reads and that fits, contents readable or not, and nothing else |
| `GitRead.ReadDocuments` | dynamic-config-git/src/fetch.rs:316-375 | all or nothing, and exact: succeeds if and only if something is there, all of it is text, and the sizes sum to at most the limit; the paths in order, each with its own text of the one tree |
| `GitRead.ReadAll` | dynamic-config-git/src/fetch.rs:359-374 | the loop: what is left is always the limit less what was read |
| `GitRead.LeavesAreFound` | dynamic-config-git/src/fetch.rs:430-437 | every path the walk lists is looked up as the very file the walk saw |
| `GitRead.NothingLeftOut` | dynamic-config-git/src/fetch.rs:559-629 | whatever can be looked up below a directory and is not one is in its listing |
| `GitRead.NoFileTwice` | dynamic-config-git/src/fetch.rs:559-629 | no path is listed twice |
| `GitRead.PrefixIsTheSubtree` | dynamic-config-git/src/fetch.rs:520-630 | in a tree as git writes them a prefix read is strictly sorted and is exactly what is below the directory |
| `GitObjects.ReadCommit` | dynamic-config-git/src/fetch.rs:316-375 | it answers if and only if the commit comes down to a tree and what was asked for can be read out of it, and then with all of that, in order, each path with its own text out of that one tree |
| `GitBlobs.DocumentsAreBlobs` | dynamic-config-git/src/fetch.rs:331-375 | every document of a commit is the text of the very object its path leads to, name by name, from the commit's own tree; what was asked for by name comes back in that order, none left out |
| `GitBlobs.PathIsItsBlob` | dynamic-config-git/src/fetch.rs:423-490 | a path reads as a text if and only if following the objects it names, first item of each name, ends at a file of that text |
| `GitBlobs.ShowsTheTree` | dynamic-config-git/src/fetch.rs:331-339 | a complete database shows the tree a commit or tag comes down to, an entry for every item, in order, read as its mode says |
| `GitPartial.AnswersOnlyFresh` | dynamic-config-git/src/fetch.rs:316-375 | documents read from any database, whatever it lacks, are what a database with everything holds for that commit: the whole of what was asked for, each path with its own text |
| `GitObjects.CompletePeels` | dynamic-config-git/src/fetch.rs:335-339 | a database with the whole of a commit shows the tree every such database shows |
| `GitObjects.MoreKeepsComplete` | dynamic-config-git/src/fetch.rs:263-267 | having more never makes a commit less complete |
| `GitCache.Directory.Compact` | dynamic-config-git/src/working.rs:238-274 | empties the directory only when it is marked, over a bound that is not zero |
| `GitCache.Directory.Open` | dynamic-config-git/src/fetch.rs:67-97 | opens what is there without marking it; marks what it creates |
| `GitCache.Directory.Fetch` | dynamic-config-git/src/fetch.rs:256-287 | transfers only a commit that is wanted and not held |
| `GitCache.Directory.FetchOnce` | dynamic-config-git/src/lib.rs:662-707 | compact, open, fetch, read, and the failure of each |
| `GitCache.FetchOutcomeIff` | dynamic-config-git/src/lib.rs:662-707 | from end to end: exactly when a check and when a read answers, with which commit and which documents; exactly when the credential counts as refused; and exactly when the failure is that of the credential's owner |
| `GitCache.StaysClosedIff` | dynamic-config-git/src/lib.rs:662-707 | whatever fails in a fetch, it leaves no commit without its tree, if and only if it is not about to compact a cache with a commit in it |
| `GitCacheRuns.StoppedRemovalHidesACommit` | dynamic-config-git/src/working.rs:259-274 | a run from an empty directory, of two commits and a compaction that stops, after which the commit is claimed, every transfer of it skipped, and every read of it fails that a fresh one would not |
| `GitCacheRuns.HiddenStaysHidden` | dynamic-config-git/src/fetch.rs:263-269 | for as long as the ref stays at a commit the cache claims and cannot show, and the directory is within the bound, every fetch fails to read it and nothing in the directory changes |
| `GitCache.ReadsFresh` | dynamic-config-git/src/fetch.rs:263-269 | what a fetch reads is all that was asked for out of the commit it names, each path with its own text, whatever the state of the cache; with a closed cache a commit that was transferred or held is read if and only if its tree can be |
| `GitCacheRuns.RunStaysClosedIff` | dynamic-config-git/src/working.rs:238-250 | a directory never comes to hold a commit without its tree, in any run against any repository, if and only if compaction is off or it holds a repository without the marker; any other is broken by some run |
| `GitCache.UnmarkedIsNeverEmptied` | dynamic-config-git/src/working.rs:209-250 | nothing is ever removed from a repository without the marker, and it is never marked later |
| `GitCache.MarkedIsBounded` | dynamic-config-git/src/working.rs:238-250 | a marked directory ends every fetch that answered with at most one pack over the bound |
| `GitCache.OnePackPerTransfer` | dynamic-config-git/src/fetch.rs:263-287 | one pack for a commit transferred, none for one held or not wanted |
| `GitCache.OwnDirectoryIsBounded` | dynamic-config-git/src/working.rs:238-250 | a directory that started empty holds at most one pack over the bound after every fetch of a run that has lost neither its marker nor part of a repository |
| `GitCache.NothingLost` | dynamic-config-git/src/working.rs:197-250 | no run loses either in which removals finish and markers can be written |
| `GitCache.StaysOursIff` | dynamic-config-git/src/working.rs:197-210 | whatever fails in a fetch, it leaves no repository without its marker, if and only if there is a repository or a marker already and nothing is about to be compacted |
| `GitCache.UnmarkedOnlyGrows` | dynamic-config-git/src/working.rs:209-250 | from then on every transfer adds its pack and none is removed |
| `GitCache.IdleTickCompacts` | dynamic-config-git/src/lib.rs:676-682 | an idle tick empties the cache if and only if the marker and the bound allow it |
| `GitWatch.TryTwice` | dynamic-config-git/src/lib.rs:646-660 | the loop's two fetches are the attempt `GitGuarantees.TickIs` is about: one retry, only after a refusal and only with a credential that can be replaced |
| `GitWatch.TakeTick` | dynamic-config-git/src/lib.rs:579-610 | one tick, branch by branch |
| `GitWatch.Watch` | dynamic-config-git/src/lib.rs:569-614 | the poll is the run of its ticks, the directory with it |
| `GitGuarantees.TickIs` | dynamic-config-git/src/lib.rs:579-643 | one tick, in terms of single fetches: which fetch decides the check and the read, and what is then remembered, delivered and ended, for every outcome of the two |
| `GitGuarantees.RefusedOnceStillDelivers` | dynamic-config-git/src/lib.rs:646-660 | with a credential that can be replaced, a refusal of the check, of the read, or of both costs nothing: the move is delivered in the same tick if the second fetch answers |
| `GitGuarantees.SecondIsNotAsked` | dynamic-config-git/src/lib.rs:646-660 | without a refusal, or without such a credential, a tick does not depend on what a second fetch would answer |
| `GitGuarantees.DeliversWholeCommits` | dynamic-config-git/src/lib.rs:569-643 | whatever becomes of the cache, each delivery is all that was asked for out of one commit, each path with its own text out of its one tree, commits come in ref order and none twice, and after an answered tick the caller's commit is at least the one the check saw |
| `GitGuarantees.WatchStaysClosed` | dynamic-config-git/src/lib.rs:569-614 | over whole watches, complete packs and compactions that stop cleanly leave no commit without its tree |
| `GitGuarantees.FailedReadIsRetried` | dynamic-config-git/src/lib.rs:586-609 | a read that failed or does not merge leaves the move to a later tick, which delivers it |
| `GitGuarantees.EndsOnlyFor` | dynamic-config-git/src/lib.rs:579-610 | the watch ends if and only if the callback refused, or the one fetch of a check failed for a credential nothing can replace |
| `GitGuarantees.RenewableNeverEndsOnRefusal` | dynamic-config-git/src/lib.rs:597-606 | a credential from a closure never ends the watch |
| `HttpExchange.Exchange.Send` | dynamic-config-git/src/tls.rs:400-497 | sends once, and what each reply leaves behind |
| `HttpExchange.Reader.MakeReady` | dynamic-config-git/src/tls.rs:517-547 | the first read of a half sends if nobody has and takes that half's bytes |
| `HttpExchange.Reader.ReadSome` | dynamic-config-git/src/tls.rs:550-554 | a read yields a beginning of what is left |
| `HttpExchange.Reader.FillBuffer` | dynamic-config-git/src/tls.rs:557-559 | a filled buffer shows without taking |
| `HttpExchange.Reader.ConsumeSome` | dynamic-config-git/src/tls.rs:561-566 | consuming takes, and never sends |
| `HttpExchange.BodyWriter.WriteAll` | dynamic-config-git/src/tls.rs:576-592 | appends while the request is pending, and says it wrote everything either way |
| `HttpExchange.Drive` | dynamic-config-git/src/tls.rs:378-592 | the three objects, their operations interleaved in any order, are one conversation |
| `HttpExchangeGuarantees.OneRequest` | dynamic-config-git/src/tls.rs:400-417 | at most one request, exactly when something was read, whose body is everything written before that, in order |
| `HttpExchangeGuarantees.LateWriteIsDropped` | dynamic-config-git/src/tls.rs:576-588 | a write after the first read reports success and changes nothing |
| `HttpExchangeGuarantees.EachHalfIsWhole` | dynamic-config-git/src/tls.rs:517-566 | on success what the header reader has yielded and still owes is together the rendered header block, and what the body reader has and owes is the response, however the reads interleave, and no read fails |
| `HttpExchangeGuarantees.HalvesArrive` | dynamic-config-git/src/tls.rs:455-536 | the header reader yields the header block and nothing else, the body reader the response and nothing else, each from the front, and a read gets nothing if and only if its own was yielded whole |
| `HttpExchangeGuarantees.HeadersArrive` | dynamic-config-git/src/tls.rs:455-467 | a header reader read to its end has yielded bytes that parse to the reply's own headers, in order |
| `HttpExchangeGuarantees.LookingShowsWhatIsNext` | dynamic-config-git/src/tls.rs:550-566 | a filled buffer shows what the half yields next, empty only at its end; a consume takes from there what it is told to, and a read no more than it was asked for |
| `HttpExchangeGuarantees.NothingMeansTheEnd` | dynamic-config-git/src/tls.rs:550-554 | a read gets nothing if and only if its half has yielded everything |
| `HttpExchangeGuarantees.BothHalvesFailAlike` | dynamic-config-git/src/tls.rs:525-528 | on failure every read of either half gives the same message and kind, and no byte |
| `HttpExchangeGuarantees.ReadsFailIff` | dynamic-config-git/src/tls.rs:429-547 | any read, of either half, after anything: it fails if and only if the status was not from 200 to 299 or there was none; the message tells a deadline, a request not sent, a redirect and a refusal apart; refused as a credential if and only if a 401, timed out if and only if the deadline passed, aborted if and only if a status from 500 to 599 |
| `HttpExchangeGuarantees.HeadersReadBack` | dynamic-config-git/src/tls.rs:455-464 | the rendered header block, split at newlines and first colons, is the headers it was made from |
| `FirestoreValue.Decode` | dynamic-config-firestore/src/value.rs:15-27 | the loop over a document's fields |
| `FirestoreValue.DecimalReadsBack` | dynamic-config-firestore/src/value.rs:44-47 | every integer printed in decimal parses to itself if it fits 64 bits and to nothing if it does not |
| `FirestoreValue.OneUndoes` | dynamic-config-firestore/src/value.rs:29-67 | decoding a tagged value gives back the value it encodes |
| `FirestoreValue.ToJsonUndoes` | dynamic-config-firestore/src/value.rs:15-67 | decoding undoes encoding for every JSON object of null, bool, 64-bit integer, double, string, array and object |
| `FirestoreValue.OutOfRangeStaysText` | dynamic-config-firestore/src/value.rs:44-47 | an integer past 64 bits stays the text it was sent as |
| `FirestoreValue.OddValuesRead` | dynamic-config-firestore/src/value.rs:29-67 | what no one writes: untagged values, other tags, integers that are none, arrays and maps without their list |
| `FirestoreBatch.PathOfIff` | dynamic-config-firestore/src/lib.rs:900-913 | a path's name gives the path back, and which other name is taken for it |
| `FirestoreBatch.Batch` | dynamic-config-firestore/src/lib.rs:685-767 | succeeds if and only if the reply answers for every document asked for, once, and for nothing else; the documents are in call order |
| `FirestoreBatch.Take` | dynamic-config-firestore/src/lib.rs:706-752 | when one entry is taken, and for each refusal what is wrong with the entry |
| `FirestoreBatch.Reorder` | dynamic-config-firestore/src/lib.rs:754-766 | back into call order, or something was not answered |
| `FirestoreBatch.ReplyOrderDoesNotMatter` | dynamic-config-firestore/src/lib.rs:679-767 | two replies that are permutations of each other both succeed or both fail, with the same result |
| `FirestoreBatch.StoredIsRead` | dynamic-config-firestore/src/lib.rs:618-767 | from the store to the merge: in whatever order the service reports the documents asked for, they are accepted and come out as they are stored, in call order, each under the section key |
| `ShellQuote.QuotedIsOneWord` | dynamic-config-git/src/auth.rs:185-187 | a quoted path is one shell word and is the path, whatever characters it holds |
| `ShellQuote.KeyIsOneArgument` | dynamic-config-git/src/auth.rs:166-177 | the command for a key is five words under sections 2.2.1 to 2.2.3 of the POSIX Shell Command Language, the third of them the path |
| `ShellQuote.QuotedTellsApart` | dynamic-config-git/src/auth.rs:185-187 | no two paths are quoted alike |

## Left out

- The network clients, gRPC, HTTP and RESP framing, `gix`, the AWS SDK and TLS material: only their answers are modelled, as free inputs under the assumptions above.
- Parsing, merging and rendering of documents: the parameter `fold`.
- Time: sleeps, intervals, deadlines and poll slices are turns in which nothing, or a failure, is answered. Asking a loop to stop is a run cut short.
- Error wording beyond which error it is, redaction, builders, `Debug` and `describe`: one branch each.
- The credential caches: a fetch's credential is obtained or is not.
- The NATS loop, the Firestore poll, Vault and the server crate: easier instances of what is here.
- `Reference::resolve` and the refspec: a listing names a commit or does not. Keys that are not valid UTF-8 are not modelled outside git trees.
- Revision overflow: etcd's `revision + 1` and S3's counts are unbounded here.
- GitObjects.ReadCommit: a path looked up through an entry whose mode says directory and whose object is a commit goes into that commit's tree, as the walk does; what the `gix` lookup does there is not in this repository.
- Two programs in one working directory, path canonicalisation, permissions and the process-wide set of claimed directories.
- A response body that breaks off while it is streaming, and the buffer a body reader keeps between filling and consuming: a consume may take more than the last filled buffer showed.
- The text an `ssh` key's path is printed from when the path is not UTF-8.
- The fetch paths of etcd, S3 and Consul, etcd's transaction for a named list among them: straight-line reads.
- GitCache.Directory.Compact: the removal is one step that finishes or leaves any part of the directory, rather than a loop over directory entries; every order and every stopping point of that loop is among the parts it may leave.
