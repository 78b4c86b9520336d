# VoiceGateway: proofs about its protocols

VoiceGateway is a Go backend that ingests what LiveKit, its agents and SDKs report about voice calls, joins it into
calls, and watches, alerts on and load-tests the agents behind them. Its hard parts are small protocols between
processes that crash and stores that fail, time out or race. This project models those protocols in Dafny and proves
what they promise.

## How the components are modelled

| files | component | form |
|---|---|---|
| `sink_rows`, `sink_insert`, `sink_store`, `sink_run` | the sink: dedupe, join, insert, mark stale, acknowledge | one worker's batch as methods over a store object whose failures are a script; any number of workers as a machine |
| `invite_create`, `invite_accept` | invitations: creating one under an idempotency key, mailing it, accepting it | machines of any number of callers; a step is one call to a store, mailer or limit |
| `capacity_values`, `capacity_run` | the capacity run: a ramp of calls driven by events, heartbeats and timers | a class with the run's fields; whatever the run observes is an arbitrary value |
| `alert_retry`, `alert_lease`, `alert_reminders` | alert delivery: retries, the lease between workers, reminders | a loop against its closed form, and machines of attempts, ticks and incident events |
| `quiet_store` | the session store that skips writes | a class refining the store that writes every commit |
| `scrape_rooms`, `scrape_readers` | the media-server scraper and its shared last reader | a class for one read; a machine of any number of workers |
| `trace_index`, `trace_join`, `trace_refs`, `trace_meaning`, `trace_export` | joining one trace export to its calls, once or again | methods that name calls on an array of spans in place, over an index object |
| `paging` | keyset paging through a project's calls | a method for a page; functions and lemmas for following the cursors |
| `windows` | the windows in which a media server was watched | one loop against the cut of the log it computes |
| `common` | options and powers of two | |

A machine's `Step` says what one call to a store can do: succeed, fail having done nothing, or fail having done it all
the same; a process may stop at any step. `Run` is any finite sequence of such steps, so a lemma over `Run` holds of
every interleaving. In the classes, a value nobody controls (an answer, a clock, which event comes next and how many
come) is assigned `*`, or is a parameter. Stores are modelled from their own SQL and Redis calls: the unique key of an
invitation, the first value kept by `COALESCE`, the latest and earliest kept by `GREATEST` and `LEAST`, the key order
of a page, the value `SET ... GET` returns. Hashes and fingerprints are injective. Where time passes it is an integer.

## Where the code meets a promise only under a condition

- **Stored and acknowledged does not always mean marked stale**, though the comment in `internal/sink/sink.go:149-151`
  says no mark is lost. In every run each acknowledged entry whose row is stored was marked if and only if the stream
  holds no accepted entry and no refused entry of one key together (`SinkRun.AckedMeansMarkedIff`); each stored row is
  marked or has an entry still to come back under exactly the same condition (`SinkRun.MarkedOrComingIff`). Otherwise
  a mark is lost for good, whichever of joiner and event store refuses (`SinkRun.MarkIsLost`): the batch with the
  refused entry acknowledges the accepted one too, and a second worker that took that one earlier then stores its row
  and stops.
- **A repeat's "unknown" is final if and only if a send begins less than 5 s after the start its row records**
  (`InviteCreate.UnknownIsFinalIff`), given that sends and records keep their timeouts: the start is taken before the
  row is stored and the organisation's name is read (`internal/invite/invite.go:173-190`), and only 5 s of the 45 s
  are spare.
- **The delivery lease excludes a second sender if and only if the time a tick is handed lags by at most 40 s less
  what a send may outlive its tick's budget** (`AlertLease.ExclusiveIffLagAllowed`): 30 s when a send may outlive it by
  its own 10 s timeout. The time comes from a ticker that keeps one tick while its reader is busy
  (`internal/app/roles.go:462-476`).
- **A retry may be planned for any time up to 48 h after creation**, not 24 h as the comment on the schedule suggests,
  because the 24 h are checked before a `Retry-After` of up to 24 h is added (`AlertRetry.AttemptsAreBounded`,
  `AlertRetry.AnyTimeOfTheSecondDayIsPlanned`). 54 attempts is the exact bound (`AlertRetry.FiftyFourIsReached`).
- **Skipping a session write is not "always safe"**, as the store's comment says. While no expiry moves back, the rows
  agree with those of a store that writes every commit if and only if no commit is skipped over other content: one
  that another process wrote, or this process in a commit whose answer was lost, since this process last found, wrote
  or deleted the session (`QuietSessions.QuietRefinesWriteThroughIff`, `QuietSessions.UnansweredCommitStays`,
  `QuietSessions.SkippedOverAnotherWrite`). With one process and an answering store, whatever the expiries, it is right
  if and only if no skipped commit's expiry is before the one last committed (`QuietSessions.OwnCallsAgreeIff`).
- **A scraper uses memory older than another worker's read** when it swaps in if and only if it has memory, another
  overtook it since, the shared value still lives, and of its own swaps since the last by another the first went
  unanswered (`ScrapeReaders.StaleMemoryIff`, `ScrapeReaders.UnansweredSwapHidesAReader`). Its samples are fresh all the
  same (`ScrapeReaders.SamplesComeFromFreshReads`).
- **"A job-only span finds the call its room opened" fails if and only if** no call had the job before and no room's
  call takes it; a room's call takes a job if it had none and the first of the room's references that names a job,
  and has a span no more than a minute after the end the call had, names this one (`TraceRefs.SecondCallIff`, with an
  export for each of the two ways it fails).
- **A snapshot fixes only when calls were created.** A call in every table read is shown 1 time, and once more for each
  of its moves from behind the cursor to ahead of it, and once less for each move from ahead to behind, so exactly
  once if and only if these balance (`Paging.TimesShown`, `Paging.ShownOnceIff`). One that keeps its sort key is
  shown once whatever else of it changes (`Paging.StableCallIsShownOnce`).
- **When a capacity step's time is up, waiting events that would have ended it are dropped.** Draining them leaves the
  calls and the step as hearing them all would if and only if none is a missing answer or a departure of a call that
  is there (`CapacityRun.DrainingHearsIff`); otherwise a step can pass that its only call has left
  (`CapacityRun.LeftUnnoticedPasses`).
- **A run that ends while its worker stops** is recorded lost, and loses its capacity if and only if it ended for another
  reason than the stop (`CapacityRun.Test.Tick`).

## Model

| member | source | states |
|---|---|---|
| SinkRows.KeysCollapseExactly | internal/sink/sink.go:349-379 | two entries get one dedupe key exactly when they are of one organisation, project and kind and carry the same event id, or are one entry without any; the crossing left open is a source that sends "entry:<id>" as its own event id |
| SinkInsert.Stores.InsertBatch | internal/sink/sink.go:30-39 | an insert stores every row or none, stores none when a row is refused, and may have stored them though it answers with an error |
| SinkInsert.Stores.DeadLetter | internal/sink/sink.go:307-333 | a dead-letter retried through any failures puts the entry on the dead-letter stream unless the context ends |
| SinkInsert.Stores.InsertWhole | internal/sink/sink.go:200-258 | a batch is sent as it is until it is taken or refused or the context ends; one of several rows that keeps failing is given up after exactly three calls in a row, a single row never |
| SinkInsert.Stores.Insert | internal/sink/sink.go:227-258 | through any failures insert stores only accepted rows and dead-letters only refused ones; if it succeeds it did so for all of them; it fails only when cancelled; with no failure it makes exactly the batch calls of bisection |
| SinkInsert.Stores.Join | internal/sink/sink.go:263-294 | join returns exactly the accepted rows in their order, dead-letters exactly the refused ones, and fails only when cancelled |
| SinkInsert.BisectionIsLogarithmic | internal/sink/sink.go:222-258 | finding k refused rows of n takes at most 1 + 2k ceil(log2 n) batch calls |
| SinkInsert.AcceptedConcat | internal/sink/sink.go:278-288 | what the two halves of a batch keep, one after the other, is what the batch keeps |
| SinkInsert.AcceptedIs | internal/sink/sink.go:278-294 | what joiner or event store leaves of a batch is exactly the rows they do not refuse, in their places' order |
| SinkInsert.Stores.MarkStale | internal/sink/sink.go:171-177 | Stored marks exactly the rows it is told of that are stored by then, retried until it is or the context ends |
| SinkInsert.Chunks | internal/sink/sink.go:206-220 | the runs are the rows in order; each fits the limit or is a single row; none could have taken the next run's first row |
| SinkStore.UniqueRows | internal/sink/sink.go:135-142 | the loop keeps exactly the first row of each key, in order |
| SinkRows.FirstHaveEachKey | internal/sink/sink.go:135-142 | dropping the repeats of a key keeps an item of every key |
| SinkRows.FirstOfEachKeyIs | internal/sink/sink.go:135-142 | an item is kept if and only if none before it has its key, and those kept stay in order |
| SinkRows.UnknownIs | internal/sink/sink.go:156-161 | an item stays if and only if its key is not known, and those that stay do so in order |
| SinkStore.FreshRows | internal/sink/sink.go:156-161 | the loop keeps exactly the rows whose key was not stored |
| SinkStore.RowsAreTheDecodable | internal/sink/sink.go:97-113 | every message with an envelope, with an event id or without, makes exactly one row, in order, of its own id, size and fields, with "entry:" and its id for a missing event id |
| SinkStore.Decode | internal/sink/sink.go:97-113 | the rows are those, one for one and in order; only the other messages are dead-lettered, and all of them unless cancelled |
| SinkStore.InsertRuns | internal/sink/sink.go:165-169 | inserting run by run stores and dead-letters what inserting all rows at once would |
| SinkStore.Settle | internal/sink/sink.go:96-177 | before a batch is acknowledged, exactly the first rows of new keys that joiner and event store take are stored, exactly those one of them refuses dead-lettered, and Stored has marked exactly the joined ones that are stored |
| SinkStore.Store | internal/sink/sink.go:94-194 | the batch's decodable entries, and no others, are acknowledged unless the context ends, and only once every one of them has its key stored and marked or the batch's first entry of that key dead-lettered |
| SinkStore.BatchIsKept | internal/sink/sink.go:94-95 | what was stored, dead-lettered and marked covers every message of the batch that has an envelope |
| SinkRows.UnknownMeans | internal/sink/sink.go:156-161 | skipping what is already stored loses no key: each is kept or was stored |
| SinkRun.WorkerStepKeeps | internal/sink/sink.go:96-194 | a worker's own step, whatever fails, loses no acknowledged entry and keeps what that worker relies on for the entries it will acknowledge |
| SinkRun.OthersUndisturbed | internal/sink/sink.go:118-179 | no step of one worker takes away what another relies on |
| SinkRun.RunKeeps | internal/sink/sink.go:72-194 | every reachable state of any number of workers is safe |
| SinkRun.AcknowledgedIsKept | internal/sink/sink.go:149-179 | in every reachable state an acknowledged entry could not be read and is dead-lettered, or a refused entry of its key is dead-lettered, or its row is stored and Stored was told about it after that |
| SinkRun.MarkIsLost | internal/sink/sink.go:144-194 | for any stream with an accepted and a refused entry of one key, refused by joiner or event store: a run after which the row is stored and unmarked, every entry of the key acknowledged and every worker idle |
| SinkRun.AckedMeansMarkedIff | internal/sink/sink.go:149-179 | every acknowledged entry of a key whose row is stored was marked in every run, if and only if the stream does not hold an accepted and a refused entry of that key |
| SinkRun.MarkedOrComingIff | internal/sink/sink.go:149-151 | every stored row of a key is marked or still has an unacknowledged entry in every run, under exactly that condition |
| SinkRun.NoEntryIsStuck | internal/sink/sink.go:72-194 | from every reachable state any worker can bring any entry to its end: stored, marked and acknowledged if it is accepted, and otherwise dead-lettered or covered by a stored row of its key |
| InviteCreate.StoredKeeps | internal/store/pgstore/invitations.go:40-101 | storing an invitation leaves one row per organisation and key, no other row's request or outcome changed, and nothing yet sent for the new row |
| InviteCreate.SendingKeeps | internal/invite/invite.go:296-325 | a send adds the row's only send, and what the call may say of it agrees with what the mail server did |
| InviteCreate.RecordingKeeps | internal/invite/invite.go:296-325 | recording an outcome, or losing the record, never makes the row claim what the mail server did not do |
| InviteCreate.CallerStepKeeps | internal/invite/invite.go:143-226 | every step of a call keeps the table sound and what every other call relies on |
| InviteCreate.RunKeeps | internal/invite/invite.go:143-226 | every reachable state of any number of calls is safe |
| InviteCreate.OnePerKey | internal/invite/invite.go:143-200 | for one organisation and key: one invitation at most, one send at most, one call at most answered as its maker |
| InviteCreate.AnswersAreForTheRequest | internal/invite/invite.go:202-213 | in every run an invitation answered, as made or as a repeat, is of the organisation, key, email and role asked for |
| InviteCreate.ReusedKeyFails | internal/invite/invite.go:210-212 | a call whose key was stored for another email or role fails |
| InviteCreate.OneOpenInvite | internal/store/pgstore/invitations.go:40-101 | an organisation never has two open invites for one email |
| InviteCreate.OthersAreLeftOrReplaced | internal/store/pgstore/invitations.go:40-101 | a call changes no other row than to revoke the open invite of its organisation and email |
| InviteCreate.RepeatsTellTheRecord | internal/invite/invite.go:214-226 | a repeat's emailed and unknown are what its row recorded at one moment |
| InviteCreate.RepeatCanAnswer | internal/invite/invite.go:204-226 | a repeat of a settled request can be answered at once with what was recorded |
| InviteCreate.OvertakenRepeats | internal/invite/invite.go:178-184 | a call overtaken by a parallel one with its key becomes its repeat |
| InviteCreate.MakersTellTheOutcome | internal/invite/invite.go:296-325 | the maker is told "emailed" only if the mail server took the message and "unknown" only if it left it without an answer, and neither without a mailer |
| InviteCreate.RepeatsChangeNothing | internal/invite/invite.go:202-226 | a call answered as a repeat changed no invitation at any of its steps |
| InviteCreate.RepeatWaitsForTheOutcome | internal/invite/invite.go:202-236 | a repeat answers "unknown" only once the first call's send lease has passed |
| InviteCreate.UnknownIsFinalIff | internal/invite/invite.go:112-118 | behind a repeat's "unknown" nobody is still sending or recording, in every run in which sends and records keep their timeouts, if and only if a send begins less than 5 s after the start its row records |
| InviteCreate.AnswersAreHonest | internal/invite/invite.go:202-231 | for an invitation stored with a send to begin, "emailed" means the mail server took it, and a definite "not emailed" means it refused it and never took it |
| InviteAccept.CommittedKeeps | internal/store/pgstore/invitations.go:261-336 | a committed accept closes an open link for this call alone, and signs in an account whose password this call set or verified |
| InviteAccept.CallerStepKeeps | internal/invite/invite.go:354-521 | every step of an accept keeps links, accounts and proofs sound, and counts its use steps |
| InviteAccept.RunKeeps | internal/invite/invite.go:354-521 | every reachable state of any number of racing accepts is safe |
| InviteAccept.LinkSucceedsOnce | internal/invite/invite.go:403-431 | a link signs in one call at most, and no call tries to use it more than twice |
| InviteAccept.PasswordWasProved | internal/invite/invite.go:471-521 | a call that signs in with a password set it on that very account or verified it as that account's |
| InviteAccept.SignsInTheInvited | internal/invite/invite.go:403-431 | a call that signs in used its open link at one of its own steps, for the account of the invited email, which a provider must have proved and no reset link allows, or for the one a reset link names; no other account changed |
| InviteAccept.OnlyUseCloses | internal/invite/invite.go:520-533 | a call closes no link but its own, by using it or by failing a reset link's guard, and opens none |
| InviteAccept.EntitledCanSignIn | internal/invite/invite.go:354-521 | an open link lets in everyone it is for: whom a provider proved, who has no account yet, who knows its password, and whom a reset link names |
| InviteAccept.OvertakenSignsIn | internal/invite/invite.go:418-431 | so does a call whose account a parallel accept made first, as that account |
| CapacityValues.Ladder | internal/capacity/run.go:98-104 | the ladder is 1, 2, 4 and so on: every power of two up to the maximum and no other step |
| CapacityValues.TopOfLadder | internal/capacity/run.go:88-104 | for a maximum of at least 1, the ladder's last step and only it is the largest power of two up to the maximum |
| CapacityValues.Mean | internal/capacity/run.go:435-441 | summing and dividing once gives the mean as each sample moves it |
| CapacityValues.MeanTimesCount | internal/capacity/run.go:435-441 | that mean, once per sample, adds up to the samples |
| CapacityValues.Median | internal/capacity/run.go:443-453 | the indexed middle of the sorted answers is what is left when the ends are dropped in pairs |
| CapacityValues.MedianSplits | internal/capacity/run.go:443-453 | at least half of the answers took at most the median and at least half at least it |
| CapacityValues.RoomsDiffer | internal/capacity/runner.go:133-139 | a run's room names differ for different calls |
| CapacityValues.RoomsAreTestRooms | internal/capacity/runner.go:20-25 | a run's rooms have exactly the shape by which a test room is told from a customer's |
| CapacityRun.EveryCallIsCountedOnce | internal/capacity/run.go:376-387 | joined, pending and gone calls add up to all calls |
| CapacityRun.AppliedKeepsBalance | internal/capacity/run.go:241-276 | any event leaves one join time per call of the step that joined, with the late ones counted among them |
| CapacityRun.WritingKeeps | internal/capacity/run.go:376-397 | every write of a step that has not passed has balanced counters, and leaves the capacity where it was |
| CapacityRun.PassingKeeps | internal/capacity/run.go:331-351 | a write that passes a step is of the next power of two, is not slower than 1.5 times the first median, and makes it the capacity |
| CapacityRun.ClimbIsMeasured | internal/capacity/run.go:88-104 | over a whole run the passed steps are a prefix of 1, 2, 4, ..., every write is balanced, and no step with a mean CPU over 90 is written passed or failed |
| CapacityRun.ClimbIsPaced | internal/capacity/run.go:331-351 | every step that passed has a median answer, at most 1.5 times that of the step of one call |
| CapacityRun.CleaningCleansUp | internal/capacity/run.go:409-431 | what cleanup asks for is a delete of every room whose creation was attempted and a hang-up of every connected caller |
| CapacityRun.Test.On | internal/capacity/run.go:241-276 | an event is heard by its call and the step; of a call that is there, no answer ends the step as the agent's answer, a departure as its job, a lost caller as the run's, and nothing else ends it |
| CapacityRun.HearingCounts | internal/capacity/run.go:241-276 | after any events the step's answers are those it had and the seconds of exactly the answers of calls there then, given since it started, in order; missing answers and failures are counted one for one |
| CapacityRun.HearingGoes | internal/capacity/run.go:268-275 | a call has gone if and only if it had, or an event said that the agent left it or that it was lost |
| CapacityRun.HearingJoins | internal/capacity/run.go:247-259 | a call's join is the first heard of it while it was there |
| CapacityRun.Test.Wait | internal/capacity/run.go:107-139 | a step hears every event up to the wake that ends it, which says why; without one none made a call go |
| CapacityRun.Test.Watch | internal/capacity/run.go:107-139 | a step whose time is up heard all its wakes and, of what waited, the joins and answers |
| CapacityRun.Test.Drain | internal/capacity/run.go:279-290 | of any events waiting when the timer fires, exactly the joins and answers are applied, in order |
| CapacityRun.DrainingHearsTheCountable | internal/capacity/run.go:279-290 | so draining counts the waiting answers as hearing them would |
| CapacityRun.DrainingHearsIff | internal/capacity/run.go:279-290 | that leaves calls and step as hearing every waiting event would, if and only if none is a missing answer, or a call's leaving or loss, of a call of the run that has not gone |
| CapacityRun.LeftUnnoticedPasses | internal/capacity/run.go:331-351 | a step whose one call the agent has left, with the event still waiting, passes and counts the call as joined |
| CapacityRun.Test.Beat | internal/capacity/run.go:294-328 | a beat ends the step exactly for a lost run, a stop, a job that waited 10 s since its dispatch, or a real call looked for after BusyEvery, in that order, and samples the CPU once it got past the first two |
| CapacityRun.Test.Verdict | internal/capacity/run.go:355-373 | a step fails exactly for an agent's rule while the tester was not busy; the plan limit is named exactly for a pending job of a Cloud agent with five sessions |
| CapacityRun.Test.Put | internal/capacity/run.go:376-397 | a write carries the counts of the calls as they stand and the mean of the CPU samples |
| CapacityRun.Test.Connect | internal/capacity/run.go:222-238 | a call is asked for in the order room, caller, job; only a caller waiting in its room can fail by its job |
| CapacityRun.Test.Add | internal/capacity/run.go:150-189 | a step has n calls whose rooms were all asked for; if it goes on, all were dispatched |
| CapacityRun.Test.Close | internal/capacity/run.go:331-351 | a step whose time is up passes if and only if the agent answered, its median is not slower than 1.5 times the first, and the tester was not busy |
| CapacityRun.Test.Step | internal/capacity/run.go:107-139 | for every schedule, a step either passes and adds its size to the passed steps, or ends the run with the blame its last write bears out |
| CapacityRun.Test.Do | internal/capacity/run.go:45-95 | for every schedule and every exit: the capacity is nil or the last passed step, "max reached" means the largest power of two up to the maximum, and the rooms and callers are cleaned up after the last create |
| CapacityRun.Test.Tick | internal/capacity/runner.go:96-104 | a run that ends while its worker stops is recorded lost, and its capacity is dropped if and only if it had one and ended for another reason; any other run is recorded as it ended |
| AlertRetry.Backoff | internal/alert/deliverer.go:124-131 | the loop computes min(30 * 2^(n-1), 1800) seconds for every n |
| AlertRetry.Paced | internal/alert/deliverer.go:105-122 | a delivery still due after k attempts is planned no earlier than the k waits together, and before 48 h |
| AlertRetry.AttemptsEndAsTheyShould | internal/alert/deliverer.go:105-122 | a delivery ends delivered, cancelled, planned again or failed exactly as its attempt came out; it is planned again within 24 h of its creation, after the longer of its wait and what the server asked for up to 24 h |
| AlertRetry.WaitsDouble | internal/alert/deliverer.go:124-131 | the waits are 30 s and then twice the one before, up to 30 minutes |
| AlertRetry.AttemptsAreBounded | internal/alert/deliverer.go:25-31 | at most 54 attempts are recorded, and none is planned at or after 48 h past creation |
| AlertRetry.FiftyFourIsReached | internal/alert/deliverer.go:105-131 | a channel that always asks for a retry is attempted 54 times |
| AlertRetry.AnyTimeOfTheSecondDayIsPlanned | internal/alert/deliverer.go:105-122 | every time from 24 h to 48 h after creation is one a retry can be planned for |
| AlertLease.StepKeeps | internal/alert/deliverer.go:75-103 | within the allowed lag every step keeps one live tick per delivery, whose lease outlasts it |
| AlertLease.ClaimsOnlyTheDue | internal/alert/deliverer.go:75-90 | a tick takes a delivery only when it is due, planned for no later and under no running lease, and leases it for two minutes |
| AlertLease.TheDueCanBeClaimed | internal/alert/deliverer.go:75-90 | and can take any such |
| AlertLease.SendsWithinTheBudget | internal/alert/deliverer.go:33-45 | a send begins within 75 s of its tick |
| AlertLease.ExclusiveIffLagAllowed | internal/alert/deliverer.go:30-45 | in every run no delivery is sent by two ticks at once, if and only if the lag is at most 40 s less the overrun |
| AlertReminders.EveryIncidentIsPaced | internal/alert/evaluator.go:115-150 | after any events, successive messages about an incident are four hours apart or, for a high rule, at twice the count |
| AlertReminders.WantedAreSent | internal/alert/evaluator.go:115-150 | after any events a turn sends a message exactly when the incident fires, stays so and its rule sends, and it is the first, or something new occurred and four hours passed or a high rule's count doubled |
| AlertReminders.OccurrencesCount | internal/alert/evaluator.go:115-127 | an incident counts its occurrences, and fires unless it was resolved after the last of them |
| AlertReminders.ShortWindowIsLogarithmic | internal/alert/evaluator.go:141-150 | m messages inside less than four hours imply a high rule and a count grown 2^(m-1)-fold |
| AlertReminders.MessagesAreBounded | internal/alert/evaluator.go:115-150 | over an incident's life, messages beyond one per four hours are logarithmic in its occurrences |
| QuietSessions.QuietStore.FindCtx | internal/auth/sessionstore.go:52-66 | a find returns the inner row's bytes and remembers its content, or forgets it |
| QuietSessions.QuietStore.CommitCtx | internal/auth/sessionstore.go:91-109 | a commit is skipped exactly when the content is the remembered one and the expiry moved by less than the slack; a failed one remembers nothing new, whether or not it took effect |
| QuietSessions.QuietStore.DeleteCtx | internal/auth/sessionstore.go:111-115 | a delete forgets the session whether or not the inner store deletes it |
| QuietSessions.QuietStore.Sweep | internal/auth/sessionstore.go:129-142 | every 1024 operations exactly the entries idle for an hour are dropped, and the others stay as they are |
| QuietSessions.CommitAgainIsSkippedIff | internal/auth/sessionstore.go:91-109 | right after a commit, or a find that follows it, another commit is skipped if and only if it has the same content and an expiry less than the slack later |
| QuietSessions.UnknownIsNotRemembered | internal/auth/sessionstore.go:52-59 | a session not found is not remembered, and no other is forgotten for it |
| QuietSessions.HistoryKnows | internal/auth/sessionstore.go:52-142 | after any calls, lost answers and other processes' writes, what is remembered of a session is its row's content unless something got past, and what got past last is |
| QuietSessions.CommitLeavesItsContentIff | internal/auth/sessionstore.go:91-109 | after any such history a commit that answers well leaves its content in the row if and only if it was written, or nothing got past since this process last found, wrote or deleted the session, or what got past last has that content |
| QuietSessions.QuietRefinesWriteThroughIff | internal/auth/sessionstore.go:91-109 | through any calls, lost answers and other processes' writes that move no expiry back, the rows keep the write-through rows' content, and an expiry never ahead and behind by less than the slack, if and only if no commit is skipped over other content |
| QuietSessions.QuietRefinesWriteThrough | internal/auth/sessionstore.go:91-109 | so alone, with a store that answers, they always do |
| QuietSessions.UnansweredCommitStays | internal/auth/sessionstore.go:91-109 | a commit that took effect without an answer stays, though the old content is committed after it |
| QuietSessions.ReadersSeeTheSame | internal/auth/sessionstore.go:52-66 | a session the quiet store finds has the write-through content; one it no longer finds had less than the slack to live |
| QuietSessions.OwnCallsAgreeIff | internal/auth/sessionstore.go:91-109 | through any answered calls of one process the tables agree after each, if and only if no skipped commit has an expiry before the one last committed |
| QuietSessions.FindFirst | internal/auth/sessionstore.go:52-109 | a session read first and then committed holds the committed content, whoever wrote before |
| QuietSessions.SkippedOverAnotherWrite | internal/auth/sessionstore.go:91-99 | a session written here, overwritten elsewhere and committed unread keeps the other's content |
| ScrapeRooms.Scraper.ReadMediaServer | internal/scrape/scrape.go:192-264 | a read fails if and only if a room that needed a full read could not be read; a good one stores and remembers exactly the reused and the newly read rooms, a failed one changes nothing |
| ScrapeRooms.WhichRoomsAreRead | internal/scrape/scrape.go:188-264 | a room that is new, changed in its counts, named by a webhook or not read in full for FullEvery is read in full, and sampled and remembered as found; any other is sampled as remembered |
| ScrapeRooms.OnlyListedRooms | internal/scrape/scrape.go:192-264 | nothing but listed rooms is sampled or remembered |
| ScrapeRooms.ReuseMatchesSimpleReadIff | internal/scrape/scrape.go:192-264 | reusing remembered rooms gives the samples of reading every room in full if and only if each room reused would still be found as it was |
| ScrapeReaders.SamplesAreFresh | internal/scrape/scrape.go:192-264 | what a good read stores or remembers comes from a full read by this worker, and a sample's is less than FullEvery old |
| ScrapeReaders.StepKeeps | internal/scrape/scrape.go:117-164 | every step of any worker keeps all memories its own and all samples fresh |
| ScrapeReaders.SamplesComeFromFreshReads | internal/scrape/scrape.go:192-264 | in every run every stored sample carries dispatches its own worker read in full less than FullEvery before |
| ScrapeReaders.MemoryIsTheLastRead | internal/scrape/scrape.go:117-134 | a worker reads with memory only if nobody swapped in since it was recorded, or one of its own swaps went unanswered |
| ScrapeReaders.StaleMemoryIff | internal/scrape/scrape.go:126-134 | in every run a swap leaves a worker with memory older than another's turn if and only if it had memory, was overtaken, the value still lives, and its first swap since the last by another went unanswered |
| ScrapeReaders.UnansweredSwapHidesAReader | internal/scrape/store.go:291-302 | a run in which a worker reads with memory older than another worker's turn |
| TraceIndex.LatestOfBoth | internal/join/join.go:242-248 | the later of two latest times is the latest of both sets, in any order |
| TraceIndex.EarliestOfBoth | internal/join/join.go:234-240 | the earlier of two earliest times is the earliest of both sets, in any order |
| TraceIndex.ByJob | internal/store/pgstore/queries.sql:37-41 | a job's call is one that no other call of the job started after |
| TraceIndex.JoinedGrows | internal/store/pgstore/queries.sql:19-31 | joining keeps every call's room, start and end, and one call per room |
| TraceIndex.JoinedIsFound | internal/join/spans.go:163-178 | once items joined, their reference finds the call they joined, and its end is unchanged |
| TraceIndex.OthersKeepTheirCall | internal/join/spans.go:57-61 | rooms joined before jobs, no later reference takes an earlier one's call away |
| TraceJoin.StepAssigns | internal/join/spans.go:104-122 | after each reference, every span joined so far carries the call its ids find in the index as it now stands, unless it starts over a minute after that call's end |
| TraceJoin.StepTimes | internal/join/spans.go:145-155 | after each reference, every call's activity and first sighting are the latest and earliest of what it had and what its joined spans report |
| TraceJoin.StepHires | internal/join/spans.go:163-174 | a room's call keeps its job or takes that of the first reference that names one and has a span that is not stale; a call without a room is opened only for a job no other call has |
| TraceJoin.StepSettles | internal/join/spans.go:63-82 | joining one more reference keeps all of that |
| TraceRefs.SecondCallIff | internal/join/spans.go:57-61 | joining an export opens a call for a job without a room if and only if no call had the job and no room's call takes it, as told from the index and the spans before joining |
| TraceRefs.AnotherJobsRoomOpensASecondCall | internal/join/spans.go:57-61 | an index and an export with which it does, the room's call already having another job |
| TraceRefs.StaleRoomSpansOpenASecondCall | internal/join/spans.go:97-104 | and one with which it does, every span naming both being stale |
| TraceRefs.JoiningSettles | internal/join/spans.go:63-82 | joining an export's references in their order settles it, whatever the index held |
| TraceRefs.RejoiningKeepsTheIndex | internal/sink/sink.go:149-151 | joining an export again, wherever joining it stopped before, leaves the index as joining it once would |
| TraceMeaning.SpanBrings | internal/join/spans.go:189-199 | a span refers to a room by room_id, or by lk.room_sid if it has neither plain id, and brings it the job of its job_id or else its lk.job_id |
| TraceMeaning.JobSpanRef | internal/join/spans.go:189-199 | a span without a room refers to its job_id, or failing both plain ids and lk.room_sid to its lk.job_id |
| TraceExport.Group | internal/join/spans.go:45-56 | the references are those of the spans, each once in order of appearance, with exactly the places of its spans |
| TraceRefs.RefsAreRoomsThenJobs | internal/join/spans.go:57-61 | the stable sort keeps every reference once and puts all rooms before all jobs |
| TraceExport.AddLinks | internal/join/spans.go:71-81 | the links grow by exactly the pairs of joined spans that were not there, none twice |
| TraceExport.RowCall | internal/join/spans.go:83-93 | the row names a call if and only if some span joined and all that did joined that one |
| TraceExport.Joiner.JoinRef | internal/join/spans.go:130-179 | the items that are not stale join their call, opened if need be, with the latest end and earliest start; a failed store joins none |
| TraceExport.Joiner.JoinSpans | internal/join/spans.go:104-122 | only the spans of the reference change, each in place to its call |
| TraceMeaning.SettledJoinTheirOwn | internal/join/spans.go:97-122 | a span without ids joins nothing; any other joins a call whose room or job is its own first id, in the order room_id, job_id, lk.room_sid, lk.job_id, unless it starts over a minute after that call's end |
| TraceMeaning.SettledJobsRideAlong | internal/join/spans.go:163-170 | a room's call keeps the job it had; without one it takes one that a span naming the room brings, if any does that is not late |
| TraceMeaning.SettledTimesAreTheirs | internal/join/spans.go:145-155 | a call's activity and first sighting take in the times it had and those its spans report, and nothing else |
| TraceExport.Joiner.Traces | internal/join/spans.go:37-95 | a joined export is settled against the final index, so every span joins its own call as above, its links are exactly the distinct (trace, call) pairs of joined spans, and its row names their one call if there is one; a failed one stopped after some of its references |
| TraceExport.RejoiningGivesTheSame | internal/sink/sink.go:149-151 | an export joined again, after a failure part way or after all, comes to the index, the spans' calls, and so the links, and the row of one joined once |
| Paging.ListCalls | internal/api/listcalls.go:197-236 | asking for one row more than the limit, a page holds the next rows and has a cursor exactly when more follow |
| Paging.KeysSort | internal/store/pgstore/queries.sql:154-194 | unknown values come last, then smaller ones first, then the older call, and of two calls exactly one comes first |
| Paging.AfterMeans | internal/store/pgstore/queries.sql:154-194 | the rows after a cursor are exactly those whose key follows it, in order |
| Paging.PageReaches | internal/api/listcalls.go:223-235 | a page shows exactly the rows between its cursor and the next one |
| Paging.NeverGoesBack | internal/api/listcalls.go:197-236 | however the table and the limit change between pages, what is shown is strictly in key order |
| Paging.PageShows | internal/api/listcalls.go:223-235 | a page shows a call if and only if it lies ahead of the page's cursor and not ahead of the next one |
| Paging.TimesShown | internal/api/listcalls.go:160-236 | pages that reach their end show a call in every table read 1 + (moves to ahead of the cursor) - (moves to behind it) times |
| Paging.ShownOnceIff | internal/api/listcalls.go:160-236 | so exactly once if and only if those moves are as many |
| Paging.StableCallIsShownOnce | internal/api/listcalls.go:160-236 | a call that keeps its sort key, whatever else of it changes, is shown exactly once |
| Paging.WholeTableIsShown | internal/api/listcalls.go:160-236 | following the cursors through an unchanged table, with any limits, shows every row once in order and ends |
| Paging.PagesOfAFixedLimit | internal/api/listcalls.go:223-235 | with a fixed limit that takes N / limit pages rounded up, or one when there are no rows |
| Paging.MovedRowIsMissed | internal/store/pgstore/queries.sql:154-194 | a row whose key moves behind the cursor between pages is never shown |
| Paging.MovedRowIsShownTwice | internal/store/pgstore/queries.sql:154-194 | a row whose key moves ahead of the cursor after it was shown is shown again |
| WatchWindows.Windows | internal/api/mediaserver.go:172-200 | the loop's windows are those of a cut of the log into stretches through which the watch went on and after which it did not, apart and in order, that cover every good read |
| WatchWindows.WindowsAreApart | internal/api/mediaserver.go:172-200 | windows are disjoint and in time order |
| WatchWindows.ReadsLieInOne | internal/api/mediaserver.go:170-200 | every good read lies in exactly one window and no failed read in any |
| WatchWindows.WindowsTellReads | internal/api/mediaserver.go:172-184 | a window runs from one good read to another of its interval, which it gives in whole seconds, truncated |
| WatchWindows.WindowsAreContinuous | internal/api/mediaserver.go:186-197 | neighbouring reads in a window share its interval and are at most three of it apart |
| WatchWindows.NeighboursCannotMerge | internal/api/mediaserver.go:186-197 | between neighbouring windows a read failed, the interval changed or more than three intervals passed |

## Left out

- SinkInsert.Stores.JoinBatch: says nothing of the call index it writes; joining is modelled in `trace_index` to `trace_export`, and for webhooks and reports not at all.
- SinkStore.Store: entries that are dead-lettered are acknowledged by the move itself, which the machine in `sink_run` models; here only the batch's own acknowledgement is.
- SinkRun.AcknowledgedIsKept: the dead-letter stream is a set, so that a retried dead-letter may add an entry twice is not modelled; nor are payload limits of one insert.
- InviteCreate.OnePerKey: validation of the email, role and base URL, the membership check's answer, creating reset links and listing invitations are folded into "may fail" or left out.
- InviteAccept.LinkSucceedsOnce: accepting every open invitation of an email at once (`AcceptPendingVerified`), looking at a link without using it, and case folding of emails are not modelled; a hash stands for its password.
- CapacityRun.Test.Add: at most eight calls connect at a time in the source, in any order; here they connect one after another, which changes only the order of what LiveKit is asked.
- CapacityRun.Test.Connect: calls are values in a list, found through a map to their place, where the source shares them by reference.
- CapacityRun.Test.Do: error texts, the wording of a failure's class and reading of the project's settings are left out; the settings' late threshold is arbitrary.
- CapacityValues.Ladder: integers are unbounded; the source's maximum is one of 8, 16, 32 and 64, where doubling cannot overflow.
- CapacityValues.Median: answers and CPU samples are real numbers, so rounding, infinities and not-a-number are not modelled; sorting is the standard library's.
- AlertLease.ExclusiveIffLagAllowed: a tick's other deliveries only take time, and one delivery is followed.
- AlertReminders.EveryIncidentIsPaced: how a resolve rule is evaluated over calls, jobs and sources, and the silence of a source, are parameters of an event.
- QuietSessions.QuietStore.CommitCtx: calls of one process are serial per token, and another process's write falls between two of them, not inside one. That the inner store answers an expired session as not found is its library's behaviour, which is not part of this model.
- ScrapeReaders.Step: listing, locking and storing a read are left out beyond what they hand on; a read is one step, as its lock outlasts it.
- TraceIndex.ByJob: between calls of a job that started at the same time, or reported no start, the database may take either; the model takes the older.
- TraceIndex.Joined: the room's name, which is kept once set, is not modelled.
- TraceExport.Joiner.Traces: one export is joined at a time against the index; another worker's joins in between are not modelled, nor is decoding the export.
- Paging.ListCalls: authorisation, parsing, totals, expiry of a snapshot and the binding of a cursor to its filters are left out.
- WatchWindows.Windows: the unset time, which the source uses for "no window", is excluded from the log.
- HTTP handlers, the console, MCP, the SDKs, recordings, metrics ingestion, redaction of webhooks and bucket retention.
- Jitter in backoff sleeps, logging and change notifications.
