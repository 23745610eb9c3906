# A verified model of the jukebox server

A household jukebox keeps one shared queue in a database. Many clients edit it
with optimistic transactions, a playback controller works through it with an mpv
process, an auto-queue tops it up, listeners vote on what is played, and every
play is written to a history. This project models those parts in Dafny and proves
what they are meant to guarantee, over all inputs and, where several parties act at
once, over all interleavings of the steps modelled here.

`dafny verify dfyconfig.toml` verifies the whole project.

## How it is organised

| component | specification and theorems | imperative code proved against it |
|---|---|---|
| positions under a UNIQUE column | `Positions` | `Positions` (two-phase renumbering), `Playlists` |
| queue transactions | `QueueModel`, `QueueEffects` | `QueueStore` (tables, rollback) |
| playback controller | `ControllerModel`, `PlaybackRuns`, `PlayOutcomes`, `Volume`, `Progress`, `Drain`, `Reordering` | `Controller` |
| mpv driver | `Player`, `Requests` | `Mpv` |
| auto-queue | `Rotation`, `WeightedPick`, `TitlePrinting` | `AutoQueue`, `Preferences`, `WeightedPick` |
| votes, submission limit | `Voting`, `RateLimiter` | the classes in the same modules |
| listening history | `History`, `HistoryEffects`, `PlayHistory` | `History.HistoryStore` |
| title parser, provider merge | `TitleParser`, `TitleGrammar`, `ProviderMerge` | methods and classes in the same modules |

`Text`, `Arithmetic` and `Wrappers` hold small helpers.

The queue is the centre. `QueueModel.Transact` says on values what each of the
thirteen transactions does; `QueueStore.Store` performs them on columns keyed by
id, renumbering positions row by row, and each method is proved to compute that
function or to leave the store as it was. `ControllerModel.Advance` says what each
controller step does to the queue and to the controller's fields, and
`ControllerModel.Notes` what it tells the history and the metadata observer;
`Controller.Controller` is proved to compute both. The theorems about runs are then
about sequences of these functions; `PlayHistory` follows a play through the
controller into the history.

## Assumptions and modelling choices

- **Rows and uniqueness.** Where the position column is renumbered, the UNIQUE
  constraint is enforced at every single row update, and a statement over many rows
  visits them in an arbitrary order.
- **Failures of storage.** Every queue method takes a `fault` flag: the database
  fails somewhere and the transaction rolls back. The steps of the controller and
  the attempts of the auto-queue take such flags too, and go on as the source does.
- **Ids** are random. An id never returns once its row is gone (`issued` remembers
  all of them); an id that collides with a live row gives the duplicate error.
- **Time** is an integer read from a non-decreasing clock, strictly increasing
  between two marks of auto-queue turns. A vote query reads it before it gets the
  lock (internal/app/voting.go:76-77), so that touches and votes of others may
  carry a later time: `Voting.VoteManager.Query` takes any time, and its answer is
  exact if nothing logged is later than it. Everything else on votes and submissions
  reads the clock under the lock. The source stores RFC 3339 text and
  compares it as text, which within one second can disagree with the order of time.
  `RecordTitleChanged` and `RecordFinished` read the clock once here, twice there.
- **Interleaving.** `Reconcile` is not atomic: client edits fall between the two
  queries of its snapshot (`torn`), between the snapshot and the choice of an item
  (`before`), and while the source is resolved and loaded (`during`). Other
  controller steps are atomic with respect to each other. Other transactions fall
  between the attempts of an auto-queue refill, and each attempt sees users,
  histories and seeds of its own. Other calls fall between the critical sections of
  a vote. Outcomes of the resolver and of the player are parameters. The history
  and metadata observers are present.
- **Player states** are those of the mpv driver and its supervisor, whose status
  agrees with their flags; `Player.EmittedAgree` proves this of the driver.
- **The drain theorems** are about one process lifetime. `Drain.PaidRunsDrain`
  covers reorders and storage failures: the bound holds if each end, failure or
  broken load is paid for, that is, its outcome is stored, which needs the row to be
  current still, or a retry is used up. `Drain.QueueDrains` says that runs without
  reorders and storage failures are such runs. `Drain.EndSpendsExactly` and
  `Drain.FailureSpendsExactly` say that an end or a failure lowers the budget if and
  only if it is paid for; `Drain.BreakSpendsExactly` says that a broken load lowers
  the budget that is left when the item is given up, after any client edits until
  then, if and only if its failure is stored and its row is still there. A bound on
  events is no progress yet: `Progress.AttemptsProgress` says which item is loaded
  after any number of undisturbed attempts, or that none is and how many were passed
  over. With reorders there is no bound at all:
  `Reordering.ReorderingDefeatsTheBudget` gives, for every retry limit and every n, a
  possible run on two added items with n ends.
- **Random choices** among equals are nondeterministic; the random numbers of the
  weighted draw are a parameter, and so are listener names. What a tag discovery and a
  search find are functions of what they are asked for.
- **Integers** are unbounded; the 64-bit overflow of the revision is not modelled.
  The quorum's floating-point ceiling is an integer ceiling.
- **Case folding**, lower-casing and the acceptance of images are arbitrary
  functions, so the results hold for whichever ones are used.

## Where the documentation and the code differ

- `docs/queue-api.md:20-21` says that a skip "removes the current (first) item until
  the player milestone owns actual playback advancement". The player owns it by now,
  and the code still deletes position 0, which may be a failed item ahead of the one
  being played.
  `QueueModel.SkipRemovesPlaying` says exactly when the two coincide, and
  `QueueModel.SkipCanMissPlaying` gives a run in which they do not.
- `docs/auto-queue.md:24` speaks of the oldest successful turn; the code goes by the
  last turn, and also marks users that it passes over for lack of preferences.
  `Rotation.ChoicesAgreeExactly` says when the two pick from the same users, and
  `Rotation.PassedOverLoses` gives a fair run after which they do not.

## What the code promises only in part

- After a stop, resume looks at the persisted status, which a stored pause
  overwrites: `PlaybackRuns.ResumeAfterStop` says that playback resumes exactly if
  none was stored in between, whatever else happened.
- A pause and an unpause give the state row back only if it was playing or buffering:
  `QueueEffects.PauseAndResume` says exactly when. An idle row shows as playing after them.
- A volume that the player takes but the database does not store is stored by the next
  report, or forgotten by the next reconciliation, whichever comes first
  (`Volume.UnstoredVolumeReturns`).
- A title reported within five seconds of the start of a segment that has another is
  not shown in the history (`HistoryEffects.TitleIsShown`), though the controller counts
  it as recorded.
- The canonical title that the auto-queue prints around a title it cannot parse does
  not always parse back: `TitlePrinting.PrintedParses` says exactly when it does, and
  `TitlePrinting.BareSuffixIsLost` gives a title with which it does not.
- Artists and genres of a listening history keep their names in one table, where an
  artist that reads "genre:" and a genre, up to case, shares its place with that genre.
  `Preferences.NamesAreOwn` says that all preferences have names of their own if and
  only if there is no such pair, and `Preferences.ArtistIsMisnamed` gives one.

## Model

| member | source | states |
|---|---|---|
| `Positions.OrderedByIsUnique` | internal/queue/store.go:384-395 | the list of ids by position is determined by a column with unique positions |
| `Positions.SelectIdsByPosition` | internal/queue/store.go:384-395 | every row is listed once, by increasing position |
| `Positions.NegateAll` | internal/queue/store.go:396-398 | flipping all positions through zero meets no UNIQUE violation, in whatever order rows are visited |
| `Positions.Compact` | internal/queue/store.go:383-407 | compaction never violates uniqueness after any row update and numbers the rows 0..n-1 in their previous relative order |
| `Positions.Arrange` | internal/queue/store.go:203-213 | renumbering never meets two equal positions, succeeds exactly when all requested ids are rows, and then numbers the rows 0..n-1 in the requested order |
| `Positions.NextFree` | internal/queue/store.go:123 | one past the greatest position is the number of rows when rows are densely numbered |
| `Positions.NumbersDelete` | internal/queue/store.go:152-163 | after a delete the remaining rows keep their relative order, whichever row went |
| `QueueModel.TransactionKeepsInv` | internal/queue/store.go:116-381 | every transaction, accepted or refused, keeps: distinct ids and URLs, at most one current row, the named current item is the current row if it is still there, status agreeing with the flags, a valid volume |
| `QueueModel.SetCurrentKeepsInv` | internal/queue/store.go:221-241 | an item made current is the only current one, even if a crash left another current |
| `QueueModel.RunKeepsInv` | internal/queue/store.go:116-381 | the same over every sequence of transactions |
| `QueueModel.ReachableStates` | internal/queue/store.go:152-356 | every state reachable from an empty queue, under any interleaving, satisfies that invariant |
| `QueueModel.CommitRaisesRevision` | internal/queue/store.go:358-381 | no commit lowers the revision, and one that changes the sequence of items raises it by one |
| `QueueModel.RevisionDeterminesItems` | internal/queue/store.go:358-381 | along a run, equal revisions mean equal sequences of items |
| `QueueModel.NoLostUpdate` | internal/queue/store.go:82-106 | though a snapshot reads revision and items in two queries with other transactions between, an edit accepted later with that revision finds exactly the items shown |
| `QueueModel.StaleEditIsRefused` | internal/queue/store.go:188-219 | of two edits made from one revision at most one is ever accepted; the loser sees a conflict, or, if it is a reorder that repeats an id, not found |
| `QueueModel.EditActsOnShownItems` | internal/queue/store.go:152-219 | what an accepted remove, clear, skip or reorder does to the ids the client was shown; a reorder is a permutation of them |
| `QueueModel.WithoutSplit` | internal/queue/store.go:152-163 | a delete by id removes exactly one row and closes the gap |
| `QueueModel.FailureIsFinal` | internal/queue/store.go:221-336 | a failed item is never queued or played again, under any interleaving of transactions |
| `QueueModel.SkipRemovesPlaying` | internal/queue/store.go:175-186 | a skip removes the item being played if and only if the row at position 0 is current |
| `QueueModel.SkipCanMissPlaying` | internal/queue/store.go:175-186 | a concrete run in which a skip removes a failed item and the playing one stays current |
| `QueueEffects.AddAppends` | internal/queue/store.go:116-150 | an addition is refused as full exactly at the limit, else as a duplicate exactly for a known id or URL; accepted, it appends one queued row with all that was submitted and raises the revision |
| `QueueEffects.SubmissionIsKept` | internal/queue/store.go:116-356 | whatever transactions follow, the row of an added item holds what was submitted as long as it is there; only a stream, or an item without a title, can get another title |
| `QueueEffects.EditAccepted` | internal/queue/store.go:152-219 | a guarded edit is accepted if and only if its revision is current and it applies, a reorder being a permutation of the ids; otherwise the error tells which |
| `QueueEffects.FinishRemoves` | internal/queue/store.go:279-313 | a played item leaves the queue and nothing else does; the revision rises, the state row is blank, the volume stays |
| `QueueEffects.FinishFails` | internal/queue/store.go:279-313 | a failed item stays in its place with the reason; no other row changes |
| `QueueEffects.RetryRequeues` | internal/queue/store.go:315-336 | an item to be retried is queued again in its place with the reason, at the same revision |
| `QueueEffects.ChoicePromotes` | internal/queue/store.go:221-241 | an item can be chosen if and only if it has not failed; its row is current and without error, any other row loses at most that mark |
| `QueueEffects.RecoverRequeues` | internal/queue/store.go:343-356 | after a recovery no row is current; each keeps everything else |
| `QueueEffects.PauseAndResume` | internal/queue/store.go:265-277 | a pause and an unpause give the state row back if and only if it was playing or buffering, and not paused |
| `QueueEffects.PauseShows` | internal/queue/store.go:265-277 | a pause command changes the flag and the status that shows it, and nothing else |
| `QueueEffects.VolumeIsStored` | internal/queue/store.go:260-263 | a volume is stored if and only if it lies in 0..100, and nothing else changes |
| `QueueEffects.ReportIsStored` | internal/queue/store.go:243-258 | a report is stored whole but for the current item, and names its row if that is a stream or has no title |
| `QueueStore.Store.constructor` | internal/database/migrations/001_foundation.sql:30-58 | the new tables are the empty queue |
| `QueueStore.Store.ReadItems` | internal/queue/store.go:87-105 | the rows of a snapshot come in queue order |
| `QueueStore.Store.Add` | internal/queue/store.go:116-150 | insertion at the end with full and duplicate errors; a fault leaves everything as it was |
| `QueueStore.Store.DeleteAndCompact` | internal/queue/store.go:153-162 | deleting one row and compacting leaves the other rows, in order, densely numbered |
| `QueueStore.Store.Remove` | internal/queue/store.go:152-163 | outcome and new state are those of the transaction; a stale revision, a missing id or a fault leaves everything as it was |
| `QueueStore.Store.Clear` | internal/queue/store.go:165-173 | the same for clearing |
| `QueueStore.Store.Skip` | internal/queue/store.go:175-186 | the same for deleting the row at position 0 |
| `QueueStore.Store.Reorder` | internal/queue/store.go:188-219 | the same for a reorder, with duplicate ids, a wrong count and unknown ids all reported as not found |
| `QueueStore.Store.ArrangeRows` | internal/queue/store.go:203-216 | if every requested id is a row, the rows take exactly the requested order; otherwise that is reported, and the tables are as they were |
| `QueueStore.Store.SetCurrent` | internal/queue/store.go:221-241 | the same for choosing the current item, the demotion included in the rollback |
| `QueueStore.Store.UpdatePlayback` | internal/queue/store.go:243-258 | the same for a player report and the title it gives the current row |
| `QueueStore.Store.SetVolume` | internal/queue/store.go:260-263 | the same for the volume, refused outside 0..100 by the table's constraint |
| `QueueStore.Store.SetPaused` | internal/queue/store.go:265-277 | the same for the pause flag and the status its CASE expression gives |
| `QueueStore.Store.Finish` | internal/queue/store.go:279-313 | the same for finishing the current item: deleted when played, kept as failed otherwise |
| `QueueStore.Store.Retry` | internal/queue/store.go:315-336 | the same for putting the current item back in the queue |
| `QueueStore.Store.Reset` | internal/queue/store.go:338-341 | the same for resetting the state row, items untouched |
| `QueueStore.Store.Recover` | internal/queue/store.go:343-356 | the same for the recovery at process start |
| `QueueStore.Store.Perform` | internal/queue/store.go:116-381 | any transaction on the tables is the corresponding step of the specification, or on a fault no step at all |
| `QueueStore.Store.PerformAll` | internal/queue/store.go:116-381 | transactions of others, one after the other, are a run of the specification |
| `Player.EmittedAgree` | internal/player/mpv.go:234-275 | in every state the driver emits, status is buffering iff the flag is set, and paused iff paused and not buffering |
| `Player.StateFollows` | internal/player/mpv.go:234-275 | every field is the last value received for it since the last load, and the status follows from the flags, idleness and loads so received |
| `Player.VolumeIsNearest` | internal/player/mpv.go:234-275 | a volume level is rounded to the nearest integer |
| `Mpv.Driver.HandleProperty` | internal/player/mpv.go:234-275 | a property change updates the field and the status that follows from the flags, and reports that state |
| `Mpv.Driver.BeginLoad` | internal/player/mpv.go:316-321 | a load resets the state to loading, keeping the volume |
| `Mpv.Driver.Connected` | internal/player/mpv.go:146-148 | a new connection replaces the old one and keeps the request invariant |
| `Mpv.Driver.NewRequest` | internal/player/mpv.go:279-280 | each request gets an id of its own and an unused channel |
| `Mpv.Driver.Register` | internal/player/mpv.go:281-299 | the sender waits exactly if there was a connection and the request was written; otherwise nothing stays pending |
| `Mpv.Driver.TakeRequest` | internal/player/mpv.go:205-209 | a reader takes a channel out of the pending map, or ignores an unknown reply |
| `Mpv.Driver.SendReply` | internal/player/mpv.go:210-211 | the reply goes to the channel taken, once |
| `Mpv.Driver.CloseReply` | internal/player/mpv.go:212 | then that channel is closed, once |
| `Mpv.Driver.ClearConnection` | internal/player/mpv.go:184-194 | every pending channel is closed and the connection forgotten if it is still this one |
| `Requests.ClosePending` | internal/player/mpv.go:189-192 | closing the pending channels one by one, in any order, closes each of them once and no other |
| `Requests.StepKeepsInv` | internal/player/mpv.go:184-314 | every step of every goroutine keeps: signals at most a reply and a close, ids unique, no registered request lost |
| `Requests.InterleavingKeepsInv` | internal/player/mpv.go:184-314 | the same over every interleaving of senders, readers and the supervisor |
| `Requests.ChannelsAreSafe` | internal/player/mpv.go:205-214 | no channel ever gets two replies, a foreign reply, a second close, or a send after its close |
| `Requests.DisconnectAnswersEveryone` | internal/player/mpv.go:184-194 | after a disconnect every registered request is closed or already in a reader's hands |
| `Controller.Controller.constructor` | internal/playback/controller.go:51-69 | a new controller has nothing loaded, and a retry limit of at least zero |
| `Controller.Controller.Start` | internal/playback/controller.go:71-81 | a start queues again what the previous process left current, and fails if that cannot be stored or the player does not start |
| `Controller.Controller.Choose` | internal/playback/controller.go:119-125 | the scan finds the first item that has not failed |
| `Controller.Controller.Reconcile` | internal/playback/controller.go:99-174 | one reconciliation, with client edits and failures at each of its database accesses, computes the step function and notes a started play exactly if it loads one |
| `Controller.Controller.Settle` | internal/playback/controller.go:126-146 | the part after the snapshot: go idle, keep the loaded item, or choose and load another, unless the choice fails |
| `Controller.Controller.Work` | internal/playback/controller.go:147-173 | resolve and load: loaded and noted in the history, unavailable, or failed with the right message, stored or not |
| `Controller.Controller.HandleState` | internal/playback/controller.go:181-245 | a player report, with the commanded-pause override, computes the step function; titles are observed, and recorded when they change |
| `Controller.Controller.HandleEnded` | internal/playback/controller.go:246-263 | an ended item is forgotten and recorded as completed, and removed if that can be stored |
| `Controller.Controller.HandleFailed` | internal/playback/controller.go:264-298 | a failed item is retried while retries are left, then recorded and marked failed |
| `Controller.Controller.SetPaused` | internal/playback/controller.go:323-334 | a pause command overrides reports only if the player accepts it, and reports failures of player and storage |
| `Controller.Controller.Resume` | internal/playback/controller.go:305-321 | resume recovers a stopped queue, or else unpauses; an unreadable state changes nothing |
| `Controller.Controller.Stop` | internal/playback/controller.go:335-344 | an accepted stop unloads and resets; a refused one changes nothing |
| `Controller.Controller.SetVolume` | internal/playback/controller.go:348-360 | a refused volume is put back; an accepted one that cannot be stored is reported |
| `PlaybackRuns.StepKeepsInv` | internal/playback/controller.go:99-360 | every step of controller or client, its changes stored or not, keeps the queue invariant, an issued loaded id whose row, if it is still queued, has not failed, and retries within the limit |
| `PlaybackRuns.StepsKeepInv` | internal/playback/controller.go:99-360 | the same over every run, restarts and reorders included |
| `PlaybackRuns.ReachableSystems` | internal/playback/controller.go:71-360 | in every reachable state at most one row is current, it is the named one, the persisted status agrees with the persisted flags, and a loaded item still queued has not failed |
| `PlaybackRuns.NotFailedStays` | internal/queue/store.go:116-356 | no transaction but its own failure makes an item fail |
| `PlaybackRuns.OverrideIsNormal` | internal/playback/controller.go:206-227 | a driver state is persisted with agreeing status and flags, whatever pause is commanded |
| `PlaybackRuns.FirstPlayableLeads` | internal/playback/controller.go:119-125 | the item chosen is the one before which all have failed; none is chosen only if all failed |
| `PlaybackRuns.ChooseLeader` | internal/queue/store.go:221-241 | choosing it succeeds even if a crash left it current, and keeps order and playability of all items |
| `PlaybackRuns.LoadingAgrees` | internal/playback/controller.go:119-167 | after an undisturbed successful load, the loaded id, the current item and the only current row are all the first playable item |
| `PlaybackRuns.BrokenItemIsPassedOver` | internal/playback/controller.go:146-160 | an item that cannot be resolved or loaded is the one item that stops being playable, and what was loaded stays so |
| `PlaybackRuns.CommandedPauseSticks` | internal/playback/controller.go:200-227 | a commanded pause holds through any number of stale reports, and from the first agreeing report on the last report decides |
| `PlaybackRuns.CommandSticks` | internal/playback/controller.go:305-334 | so after any pause or resume command that the player takes |
| `PlaybackRuns.ReportIsShown` | internal/playback/controller.go:200-227 | a report is shown with its title, position, duration and error, the commanded pause and the set volume |
| `PlaybackRuns.OverrideIsLikePlayer` | internal/playback/controller.go:206-227 | past loading, a commanded pause shows the status the player itself would derive |
| `PlaybackRuns.ResumeAfterStop` | internal/playback/controller.go:305-344 | whatever edits, ticks, events and other commands come between a stop and a resume, playback resumes if and only if no pause was accepted and stored among them |
| `PlaybackRuns.StepWhileStopped` | internal/playback/controller.go:99-360 | a stopped controller changes nothing in the status but what a stored pause asks for |
| `PlaybackRuns.ChosenRows` | internal/queue/store.go:221-241 | the rows after a choice: same order, same playability, the chosen one current |
| `PlayOutcomes.EndRemovesItem` | internal/playback/controller.go:246-263 | an end that is stored removes exactly the loaded item's current row, raises the revision and blanks the state row |
| `PlayOutcomes.EndElsewhere` | internal/playback/controller.go:246-263 | in every other case the queue is as it was |
| `PlayOutcomes.LastFailureKeepsItem` | internal/playback/controller.go:264-298 | the last failure leaves the item in its place as failed, with the message, and no other row changes |
| `PlayOutcomes.FailureRequeuesItem` | internal/playback/controller.go:264-298 | an earlier failure queues it again in its place with the message, counts one attempt, and waits half a second |
| `PlayOutcomes.FailureElsewhere` | internal/playback/controller.go:264-298 | in every other case the queue is as it was |
| `PlayOutcomes.RetryWaits` | internal/playback/controller.go:99-112 | until then a reconciliation lets clients edit and does nothing itself; from then on it is due |
| `PlayOutcomes.RetriedUpToLimit` | internal/playback/controller.go:99-298 | an item that keeps failing is still to be loaded after as many failures as the limit, and has failed after one more, with the last message |
| `PlayOutcomes.NothingPlayable` | internal/playback/controller.go:126-135 | with nothing playable the controller goes idle and changes no row |
| `PlayOutcomes.LoadPlays` | internal/playback/controller.go:136-167 | a load that works leaves the first playable row current, the state row loading it, and no other row changed but for the mark |
| `PlayOutcomes.BreakLeavesReason` | internal/playback/controller.go:146-160 | one that does not leaves the row failed in its place with the reason |
| `PlayOutcomes.AwayLeavesChoice` | internal/playback/controller.go:150-160 | without a player the row stays chosen and the state row says why |
| `PlayOutcomes.UnavailableIsShown` | internal/playback/controller.go:181-199 | when the player goes away nothing is loaded and the state row says why |
| `PlayOutcomes.IdleIsShown` | internal/playback/controller.go:181-199 | with nothing loaded, an idle player shows as idle and no other report is stored |
| `PlayOutcomes.TitlesAreObserved` | internal/playback/controller.go:228-245 | every title reported of a loaded item reaches the metadata observer, new or not, and no other does |
| `PlayOutcomes.StopUnloads` | internal/playback/controller.go:335-344 | a stop unloads and keeps the rows; a refused one changes nothing |
| `PlayOutcomes.ResumeRecovers` | internal/playback/controller.go:305-321 | a resume after a stop runs again, with nothing current |
| `PlayOutcomes.RefusedPauseIsForgotten` | internal/playback/controller.go:323-334 | after a refused pause reports are followed again |
| `Volume.VolumeIsTheLastSet` | internal/playback/controller.go:99-360 | over every run in which the database stores each volume that the player takes, the stored volume is the last one set; reports never write another |
| `Volume.VolumeSurvives` | internal/playback/controller.go:99-360 | in a run from a process start in which nobody sets the volume it stays, restarts and client edits included |
| `Volume.SetVolumeStays` | internal/playback/controller.go:348-360 | a volume that is taken and stored stays until another is |
| `Volume.UnstoredVolumeReturns` | internal/playback/controller.go:348-360 | one that is taken but not stored is written by the next report, unless a reconciliation reads the state first |
| `Progress.AttemptsProgress` | internal/playback/controller.go:99-174 | from any state with nothing loaded, undisturbed attempts pass over one playable item each until the first that resolves and loads; that one loads the item whose turn it is, which stays loaded; if none does in time, nothing is loaded and exactly the items tried stopped being playable |
| `Progress.PlaybackProgresses` | internal/playback/controller.go:99-174 | so as many attempts as there are playable items, whatever the resolver answers, load one or leave none playable |
| `Drain.StepSpends` | internal/playback/controller.go:99-360 | each step, reorders and storage failures included, keeps to the budget up to what clients add, and each end, failure or broken load of a queued item that is paid for lowers it |
| `Drain.EditKeepsStatus` | internal/queue/store.go:116-219 | no client edit changes the status of a row that stays |
| `Drain.PermutedBudget` | internal/queue/store.go:188-219 | a reorder keeps the budget |
| `Drain.RunSpends` | internal/playback/controller.go:99-360 | over a run in which every spending step is paid for, the budget pays for them all |
| `Drain.PaidRunsDrain` | internal/playback/controller.go:99-360 | from n items, with m added, at most (n+m)(retryLimit+1) ends, failures and broken loads occur, if each is paid for, whatever clients do |
| `Drain.StepKeepsLoadedLeads` | internal/playback/controller.go:99-298 | without reorders, a loaded item still queued is current and has only failed items before it |
| `Drain.EditKeepsLeader` | internal/queue/store.go:116-186 | no edit but a reorder puts an item before the leading one |
| `Drain.OrderlyRunIsPaid` | internal/playback/controller.go:99-298 | without reorders and storage failures every spending step is paid for |
| `Drain.QueueDrains` | internal/playback/controller.go:146-298 | so in such runs at most (n+m)(retryLimit+1) such events occur |
| `Drain.EndSpendsExactly` | internal/playback/controller.go:246-263 | in any reachable state the end of a loaded item still queued lowers the budget if and only if it is stored and finds the row current; otherwise the budget rises by the retries forgotten |
| `Drain.FailureSpendsExactly` | internal/playback/controller.go:264-298 | the same for a failure, which is also paid for by a retry that is left |
| `Drain.BreakSpendsExactly` | internal/playback/controller.go:146-160 | whatever clients do during the reconciliation, an item that cannot be resolved or loaded lowers the budget left when it is given up if and only if its failure is stored and its row is still there; undisturbed, it lowers the budget if and only if its failure is stored |
| `Reordering.OneRound` | internal/playback/controller.go:99-263 | one round of a run: load, reorder, choose while the player is away, end, reorder back; the end is lost and the items are as before |
| `Reordering.ReorderingDefeatsTheBudget` | internal/playback/controller.go:126-155 | for every retry limit and every n there is a possible run from an empty queue, with two items added and reorders, in which n loaded items end |
| `Rotation.LongerWaitGoesFirst` | internal/autoqueue/engine.go:209-243 | of two users always active, the one who waited longer gets as many turns or one more |
| `Rotation.TurnsDifferByAtMostOne` | internal/autoqueue/engine.go:209-243 | over every interval in which two users stay active, whoever else comes and goes, their turns differ by at most one |
| `Rotation.EveryoneInBetween` | internal/autoqueue/engine.go:209-243 | between two turns of one user every other user active throughout gets a turn |
| `Rotation.OneTurnEach` | internal/autoqueue/engine.go:209-243 | with n active users, n consecutive turns give each exactly one |
| `Rotation.RotationIsPeriodic` | internal/autoqueue/engine.go:209-243 | so the rotation repeats with period n, however ties fell |
| `Rotation.ChoicesAgreeExactly` | internal/autoqueue/engine.go:209-243 | choosing by last turn and by last successful turn pick from the same users if and only if none of those waiting longest for a success was passed over after the last turn of another active user |
| `Rotation.PassedOverLoses` | internal/autoqueue/engine.go:184-186 | a fair run after which the code chooses the user with the more recent success |
| `WeightedPick.Pick` | internal/autoqueue/engine.go:402-415 | a draw selects the entry whose share contains it; the fallback is never reached |
| `WeightedPick.DrawsOnce` | internal/autoqueue/engine.go:402-415 | no draw selects two entries |
| `WeightedPick.PickIsExact` | internal/autoqueue/engine.go:402-415 | of the total number of draws exactly as many as its weight select an entry |
| `WeightedPick.PositiveTotal` | internal/autoqueue/engine.go:402-407 | positive weights leave at least one draw per entry |
| `WeightedPick.MergeNormalized` | internal/autoqueue/engine.go:387-400 | every count adds its scaled weight under its prefixed name, other entries and an all-zero table change nothing |
| `WeightedPick.WeightsAreScaled` | internal/autoqueue/engine.go:387-400 | weights lie in 1..11, are monotone in the count, and are 11 exactly for the top count |
| `WeightedPick.WeightIsProportional` | internal/autoqueue/engine.go:387-400 | what a weight has above 1 is ten times the share of the count in the largest one, rounded down |
| `WeightedPick.ProfileIsProportional` | internal/autoqueue/engine.go:287-289 | so for every artist and every genre of a profile, each among its kind |
| `WeightedPick.Profile` | internal/autoqueue/engine.go:287-289 | the profile holds for every artist and every genre its own scaled weight, under keys that never collide |
| `WeightedPick.ProfileWeights` | internal/autoqueue/engine.go:287-289 | its weights lie in 1..11, and the most frequent artist has 11 |
| `Preferences.CountNames` | internal/autoqueue/engine.go:274-286 | the loops count every artist and every genre of the artists exactly; the label of a key is the last name written under it |
| `Preferences.SharedLabel` | internal/autoqueue/engine.go:276-297 | if an artist reads "genre:" and a genre that occurs, up to case, both entries have the same name, and it is the own name of exactly one of them |
| `Preferences.NamesAreOwn` | internal/autoqueue/engine.go:276-297 | every entry has a name that lower-cases to the name in its key if and only if there is no such pair |
| `Preferences.ArtistIsMisnamed` | internal/autoqueue/engine.go:276-297 | the artist "Genre:Rock" with the genre "Rock" is listed as "Rock" |
| `Preferences.Rank` | internal/autoqueue/engine.go:290-302 | the list holds the forty heaviest entries, heaviest first, whatever the order of ties, each with kind, label and weight of its key |
| `Preferences.CollectArtists` | internal/autoqueue/engine.go:256-266 | the artists of the titles that have one, in order |
| `Preferences.UserPreferences` | internal/autoqueue/engine.go:245-304 | positive weights always; empty without artists; otherwise the ranking of the profile, led by weight 11 |
| `Preferences.SplitSeeds` | internal/autoqueue/engine.go:317-329 | the trimmed nonempty parts, first occurrences up to case |
| `Preferences.SeedPreferences` | internal/autoqueue/engine.go:306-315 | the seeds of both kinds in order, each with the same positive weight |
| `Preferences.RelatedPreferences` | internal/autoqueue/engine.go:331-365 | what is known about the artist of the last item, blank names dropped, with positive weights; empty if there is no such artist |
| `Preferences.NotBlankExactly` | internal/autoqueue/engine.go:349-363 | the names kept are exactly those that are not blank |
| `AutoQueue.Engine.constructor` | internal/autoqueue/engine.go:39-44 | a new process finds the turns stored by earlier ones |
| `AutoQueue.Engine.Oldest` | internal/autoqueue/engine.go:226-236 | the scan finds exactly the users whose last turn is oldest |
| `AutoQueue.Engine.FairUser` | internal/autoqueue/engine.go:209-238 | the user chosen is one of them |
| `AutoQueue.Engine.MarkSelected` | internal/autoqueue/engine.go:240-243 | a marked turn extends the fair run of turns |
| `AutoQueue.Engine.PreferencesForUsers` | internal/autoqueue/engine.go:165-188 | unless the database fails, the loop visits each user at most once, finds a user with preferences exactly when there is one, the longest waiting of them, with that user's preferences, and marks exactly those passed over: every user, if nobody has any |
| `AutoQueue.Engine.ChoosePreferences` | internal/autoqueue/engine.go:158-190 | in every mode the draw is over positive weights, nonempty exactly if the mode offers anything; a selected user is fairly chosen |
| `AutoQueue.Engine.TryOnce` | internal/autoqueue/engine.go:95-154 | an attempt, after transactions of others, adds at most what a search for the drawn preference found, under a canonical title; the draw is of what the mode gives, of one user's taste if any; every outcome is explained, and exactly for an item added for a user one successful turn of that user is marked |
| `AutoQueue.Engine.Look` | internal/autoqueue/engine.go:103-138 | the search is for the preference, or for a discovered track of its genre, and its result is stored under the canonical title |
| `AutoQueue.Engine.CanonicalTitle` | internal/autoqueue/engine.go:105-137 | a discovered track is printed, a title that parses is kept, any other is printed with channel or preference |
| `AutoQueue.StoredTitleParses` | internal/autoqueue/engine.go:105-137 | a title kept as found has an artist; any other, of a discovered track or of a result, parses to the artist and the cleaned title it is made of if and only if the condition of TitlePrinting.PrintedParses holds |
| `AutoQueue.Engine.Refill` | internal/autoqueue/engine.go:71-156 | with transactions of others and new users, histories and failures at every attempt: the queue is the run of those and of the own additions, never more of them than were missing at the start, in at most six attempts for each of these, one successful turn each, and the reason why the refill ends |
| `AutoQueue.RefillAppends` | internal/autoqueue/engine.go:95-155 | if nobody else edits the queue, a refill appends the items it gained, each with the source and the canonical title its attempt found, later items from later attempts, and changes nothing else |
| `AutoQueue.Engine.CountQueued` | internal/autoqueue/engine.go:81-86 | the loop counts the queued items |
| `Voting.VoteManager.constructor` | internal/app/voting.go:30-32 | a manager starts with an empty log |
| `Voting.VoteManager.Touch` | internal/app/voting.go:68 | a touch appends to the log that the kept maps answer for |
| `Voting.VoteManager.Mark` | internal/app/voting.go:124-133 | a vote or withdrawal does too, on its own key only |
| `Voting.VoteManager.Clear` | internal/app/voting.go:137 | clearing forgets the votes on one key and nothing else |
| `Voting.VoteManager.PruneVotes` | internal/app/voting.go:84-93 | pruning drops exactly the expired votes of every key |
| `Voting.VoteManager.Query` | internal/app/voting.go:70-120 | votes, own vote, active listeners, quorum and expiry are those of the full, never pruned log, however often anything was pruned; if others touched or voted after the time was read, they lie between those at that time and those at the latest time logged |
| `Voting.VoteManager.SetVote` | internal/app/voting.go:122-135 | touch, vote and query, with any calls of others between them, give the answer of the log extended by all these events in order, exact unless one of the last is later than the time the query read |
| `Voting.VoteManager.OtherCalls` | internal/app/voting.go:68-137 | calls of others append their events to the log, queries append none |
| `Voting.Prune` | internal/app/voting.go:79-83 | deleting while iterating keeps exactly the entries within their lifetime |
| `Voting.EarliestExpiry` | internal/app/voting.go:110-118 | the expiry reported is that of the oldest standing vote, or of now if none is older |
| `Voting.PrunedTouches` | internal/app/voting.go:79-83 | what is left after pruning is the set of active listeners of the log; with an earlier time than the log's, those still active at the log's time, and no other than those active at the earlier one |
| `Voting.PrunedVotes` | internal/app/voting.go:84-99 | the same for the standing voters of the log |
| `Voting.MarkedVotes` | internal/app/voting.go:122-137 | one event changes the kept votes as it changes the log's standing votes |
| `Voting.VotesStandUntilExpiry` | internal/app/voting.go:110-118 | whatever happens until the reported expiry, no vote is lost by expiring: the voters are the earlier ones and the new ones whose latest vote, withdrawal or clearing since, if any, is a vote |
| `Voting.VotesFallAfterExpiry` | internal/app/voting.go:110-118 | with no new events the voters are the same at a later time if and only if it is not after the reported expiry |
| `Voting.QuorumIsLeast` | internal/app/voting.go:100-107 | the quorum is the least count that makes up the percentage, between one and all active listeners |
| `Voting.UnanimousVotePasses` | internal/app/voting.go:100-108 | if every active listener has a standing vote the quorum is met |
| `Voting.LoneVotePasses` | internal/app/voting.go:122-135 | a lone listener's own vote always meets it |
| `RateLimiter.Limiter.constructor` | internal/app/queue.go:282-284 | a limiter starts with no windows |
| `RateLimiter.Limiter.Allow` | internal/app/queue.go:285-299 | grant and new windows are those of the step function, for any limit and window |
| `RateLimiter.SlidingBound` | internal/app/queue.go:285-299 | any interval of k windows, wherever it starts, grants a key at most (k+1)*limit-1 calls |
| `RateLimiter.SlidingBoundIsMet` | internal/app/queue.go:285-299 | for every limit, every k and every window longer than one tick, a trace that reaches this bound |
| `RateLimiter.NoLimitNoGrant` | internal/app/queue.go:293-295 | with no positive limit nothing is granted or remembered |
| `RateLimiter.DeniedOnlyWhenSpent` | internal/app/queue.go:290-295 | a denied call had `limit` granted calls of its key less than one window before it |
| `RateLimiter.KeysAreIndependent` | internal/app/queue.go:285-299 | a key's window, and what it is granted, are those its own calls alone would give |
| `History.RecordKeepsOneOpen` | internal/library/store.go:277-350 | every record keeps at most one open segment per queue item |
| `History.HistoryKeepsOneOpen` | internal/library/store.go:277-350 | so in every state of every run |
| `History.OtherRecord` | internal/library/store.go:277-350 | records about other items, pruning included, leave a play in progress alone |
| `History.OwnTitle` | internal/library/store.go:311-350 | a title change renames the open segment, splits it after the debounce, or does nothing |
| `History.PlayIsTiled` | internal/library/store.go:277-350 | from start to finish, through title changes and records of other items, the segments of a play tile its time, number at most 1 + duration/5s, have the source and submitter of the start, each but the first is opened by a title change and carries its title, all but the last are completed, and the last carries the final title and outcome |
| `History.TilesCoverOnce` | internal/library/store.go:277-350 | such a tiling covers every moment exactly once |
| `HistoryEffects.StartInterrupts` | internal/library/store.go:277-294 | a start interrupts the open segments of the item and appends one without title; no other row changes |
| `HistoryEffects.TitleChangeEffect` | internal/library/store.go:311-350 | a title change names an untitled open segment, or splits a titled one that is five seconds old: the new segment has that title and the item, source and submitter of the old one, which is completed; no other row changes |
| `HistoryEffects.TitleWithoutSegment` | internal/library/store.go:323-326 | without an open segment it is dropped |
| `HistoryEffects.TitleIsShown` | internal/library/store.go:311-350 | afterwards the open segment shows the title, up to case, if and only if it did not come within five seconds of the start of one with another title |
| `HistoryEffects.FinishCloses` | internal/library/store.go:295-309 | the end gives the open segment its title, time and outcome; then exactly the rows older than the retention period go |
| `PlayHistory.ChronicleWhileLoaded` | internal/playback/controller.go:228-245 | while an item stays loaded, the controller records nothing but the titles that the player reports of it |
| `PlayHistory.TitlesAreRecordedOnce` | internal/playback/controller.go:228-245 | none of them twice in a row, and what was recorded last is what was reported last |
| `PlayHistory.PlayLeavesHistory` | internal/playback/controller.go:161-298 | an item that is loaded and stays loaded until it ends or fails for the last time leaves segments that tile exactly that time, of its source and submitter, with the titles the player reported, whatever clients and player do in between |
| `History.HistoryStore.constructor` | internal/library/store.go:277-294 | a new history is empty |
| `History.HistoryStore.FindOpen` | internal/library/store.go:323 | the latest open segment of an item is found if there is one |
| `History.HistoryStore.RecordStarted` | internal/library/store.go:277-294 | starting closes what was open as interrupted and opens a new segment |
| `History.HistoryStore.RecordTitleChanged` | internal/library/store.go:311-350 | the title change of the specification, with the right answer on whether it split |
| `History.HistoryStore.RecordFinished` | internal/library/store.go:295-309 | finishing closes the one open segment and prunes by the retention period |
| `Playlists.PlaylistStore.constructor` | internal/database/migrations/001_foundation.sql:88-97 | there are no playlists at first |
| `Playlists.PlaylistStore.AddItem` | internal/library/store.go:196-222 | only the owner appends, at the next dense position; otherwise nothing changes, and no owner ever does |
| `Playlists.PlaylistStore.RemoveItem` | internal/library/store.go:224-258 | only the owner removes, exactly that item, the others keep their order, densely numbered, and no owner changes |
| `TitleParser.ParseTitle` | internal/enrichment/enrichment.go:47-65 | the loops compute artist, title and raw title of the specification; the suffix loop ends |
| `TitleParser.CleanShortens` | internal/enrichment/enrichment.go:49-55 | stripping never lengthens a text, and shortens it whenever it changes it |
| `TitleParser.StripsASuffix` | internal/enrichment/enrichment.go:45 | a text changes under stripping exactly if some ending of it is removable |
| `TitleGrammar.SuffixesAreMatches` | internal/enrichment/enrichment.go:45 | the removable suffixes are exactly the texts of the regular expression, part by part |
| `TitleGrammar.StripCutsLongest` | internal/enrichment/enrichment.go:50 | stripping cuts off the longest such ending |
| `TitleGrammar.CutGoesByDash` | internal/enrichment/enrichment.go:56-64 | the cut is at the first kind of dash, in the order of the three, whose first occurrence leaves two parts |
| `TitleParser.CleanIsCollapsed` | internal/enrichment/enrichment.go:48-55 | a cleaned text has single blanks and no removable suffix left |
| `TitleParser.CutPrinted` | internal/enrichment/enrichment.go:56-63 | cutting "artist - title" gives the two parts back exactly if the artist cannot be cut earlier |
| `TitleParser.ParseUndoesPrint` | internal/enrichment/enrichment.go:47-65 | for visible parts, parsing undoes printing if and only if the artist has no separator in it or begun at its end and the whole has no removable suffix |
| `TitleParser.SimilarStrip` | internal/enrichment/enrichment.go:45-56 | which dash a text uses has no bearing on its removable suffixes |
| `TitleParser.CanonicalFormIsStable` | internal/enrichment/enrichment.go:47-65 | printing the parts of any raw title that has an artist and parsing again gives the same artist and title |
| `TitlePrinting.NormalOfPrinted` | internal/enrichment/enrichment.go:48 | normalising a printed pair normalises its parts |
| `TitlePrinting.PrintedHasSuffix` | internal/enrichment/enrichment.go:45 | the removable suffixes of a printed pair are those of the title, and one that begins at an open bracket of the artist's |
| `TitlePrinting.CleanPrinted` | internal/enrichment/enrichment.go:49-55 | unless such a bracket swallows it, the title is cleaned as if it stood alone |
| `TitlePrinting.PrintedParses` | internal/autoqueue/engine.go:128-137 | an artist printed before any raw title parses back, with the cleaned title, if and only if something is left of the title, the artist cannot be cut early, and no open bracket of the artist's meets a title cut at its first closing bracket |
| `TitlePrinting.BareSuffixIsLost` | internal/autoqueue/engine.go:128-137 | a title that is only a removable suffix leaves no artist |
| `ProviderMerge.CollectKeeps` | internal/enrichment/coordinator.go:158-176 | collecting keeps entries distinct under case folding and within the limit, and never moves an earlier one |
| `ProviderMerge.CollectTwice` | internal/enrichment/coordinator.go:158-176 | collecting the same entries again changes nothing |
| `ProviderMerge.CollectIsFirstOccurrences` | internal/enrichment/coordinator.go:158-176 | collecting into an empty list gives the first occurrences, up to the limit |
| `ProviderMerge.MergeKeeps` | internal/enrichment/coordinator.go:131-157 | a merge keeps genres and related artists distinct, at most twelve, earlier ones in place |
| `ProviderMerge.MergeTwice` | internal/enrichment/coordinator.go:131-157 | merging a result twice in a row equals merging it once |
| `ProviderMerge.FirstTwelve` | internal/enrichment/coordinator.go:105-112 | folding any provider results from an empty start gives the first twelve distinct genres and related artists in provider order |
| `ProviderMerge.SingleValues` | internal/enrichment/coordinator.go:105-157 | biography and link are the first there are, the artist the last that a provider other than Wikimedia names, the image the last acceptable one of Wikimedia, or else the first acceptable one |
| `ProviderMerge.UsableExactly` | internal/enrichment/coordinator.go:158-163 | the genres merged are those that are not blank, trimmed |
| `ProviderMerge.NamedExactly` | internal/enrichment/coordinator.go:142-153 | the related artists merged are those with a name |
| `ProviderMerge.MergeStrings` | internal/enrichment/coordinator.go:158-176 | the nested loops collect the trimmed, nonempty entries |
| `ProviderMerge.MergeRelated` | internal/enrichment/coordinator.go:142-153 | the same loops for related artists with a name |
| `ProviderMerge.Destination.Merge` | internal/enrichment/coordinator.go:131-157 | the destination is updated to the merged value |

## Left out

- HTTP routing, JSON, server-sent events, authentication, logging and the browser code.
- SQLite itself; the tables are columns with the stated constraints and transactions.
- The snapshot that an accepted edit reads after its commit, which can fail although the edit holds.
- The mpv process, its sockets and its supervisor's restarts; yt-dlp, the metadata providers and image files.
- The bounded event channel of the player, which drops events when it is full.
- `Controller.Controller.Reconcile`: commands that arrive during its step are ordered before or after it, so races with stop, volume and resume are not covered.
- `Controller.Controller.HandleState`: no command falls between its steps; a failing history or metadata observer is only logged by the source and not modelled.
- `Controller.Controller.Settle`: stopping the player when nothing is left to play is a call whose outcome the source ignores, and is left out, as is seeking.
- `Progress.AttemptsProgress`: asks that the player is there at every attempt and that nothing disturbs them; an unavailable player leaves the chosen item as it is.
- `Controller.Controller.Work`: the volume that the player is told after a load is left out, a call whose failure the source only logs.
- `Drain.PaidRunsDrain`: does not cover a restart of the process, after which retries start anew; each lifetime is covered by itself.
- `Drain.QueueDrains`: does not cover reorders and storage failures, for which the bound is false as stated above; `Drain.PaidRunsDrain` covers those runs that keep it.
- `History.PlayIsTiled`: plays longer than the retention period lose their earliest segments, so it asks that the period reaches back to the start of the play.
- `PlayHistory.PlayLeavesHistory`: the same, and the history store is taken to work.
- `Voting.VoteManager.Query`: the policy is fixed; a change of policy between calls, the handlers around votes and the parsing of settings are not modelled.
- `AutoQueue.Engine.Refill`: the settings are read once, at the start; the depth counts the items queued then, so that additions of others meanwhile can exceed it.
- `Preferences.UserPreferences`: the rows of history, likes and enrichments are parameters; the SQL that selects the latest five hundred is not modelled.
- The scheduling of metadata lookups and the cache keys.
- The titles, sources and time stamps of playlist items, the source kind and error text of history segments, the added-at time and the submitter join of queue items.
- Accounts, settings, stations, searches and list queries.
