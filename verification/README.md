# owlpost, modelled and verified in Dafny

owlpost is a peer-to-peer mailbox for questions between developers' machines. A home keeps one
record per id in `inbox/`, `outbox/`, `asks/`, `done/` and `cache/`; commands and the daemon are
sequences of atomic file writes, any of which can fail. This project models that machinery and
proves what it keeps over whole runs, together with the algorithms it leans on.

`dafny verify dfyconfig.toml` checks everything.

## How the project is laid out

The exchange of questions and answers:

- `Exchange.dfy`: records, and what each command does to a home, with a flag for every write.
- `Machine.dfy`: one home with its daemon as a state machine; the three legs of an automatic attempt
  interleave with attempts on other records, arrivals and commands.
- `SpoolStore.dfy`: the same commands as classes and loops that change the directories one write at a
  time, each proved equal to the step it implements; `Batches.dfy` and `Pulls.dfy`: what the loops over
  many records come to.
- `Sending.dfy`, `Accounting.dfy`, `Attempts.dfy`, `OneRequest.dfy`, `Consent.dfy`, `TaskProgress.dfy`:
  what every run of the machine keeps.
- `Outcomes.dfy`: the meaning of every command, request and attempt a second time, said of the records
  alone; `OutcomeRuns.dfy`: what these outcomes come to over whole runs.
- `Listings.dfy`: a pull's list of open asks while other commands run.
- `Admission.dfy`: the table of seen ids in front of the machine.
- `Witnesses.dfy`: runs in which the provisos of the theorems fail, and the theorems with them.
- `Delivery.dfy`: two such machines, asker and responder, with a network that repeats, forges and loses;
  `DeliveryWitness.dfy`: a run of both in the order the commands take.
- `PullRuns.dfy`: the loops of a pull as steps of one machine and of the two.

Waking sessions: `Routing.dfy` (the steps), `WakeDesk.dfy` (the loops that take them), `WakeTicks.dfy`
(what a route and a tick do to one record), `WakeRuns.dfy` (what runs keep), `WakeOutcomes.dfy` (every step's
meaning a second time, said of markers, wake files and routings), `WakeWitness.dfy` (a run that wakes two).

Admission: `Replay.dfy` (freshness window and table of seen ids), `RateLimit.dfy` (token bucket).

Algorithms and bounded structures: `Calendar.dfy` and `TimeStamps.dfy`, `Glob.dfy`, `Der.dfy`,
`UnitFile.dfy`, `UnitRoundTrip.dfy` and `UnitReader.dfy`, `EventLog.dfy`, `Utf8Cut.dfy`.

## What the proofs found in the code

Each of these is a lemma about concrete inputs or whole families of them, next to the exact condition
under which the intended property does hold.

- A retried `owl send` looks for the earlier envelope in `outbox/` only, so an ack between a failed
  send and its retry lets a second envelope be signed (`Accounting.RetryAfterAckSignsAgain`, and the
  five-step run `Witnesses.SecondEnvelope`); `Accounting.SendSignsExactly` says when a send signs, and
  `OneRequest.SignedOnce` when a request is answered once.
- An ack in the middle of an attempt that then fails at the log lets another attempt sign again
  (`Witnesses.SignedAutomaticallyTwice`).
- `owl reject` does not look for a spooled envelope. Run late it makes the asker's task go from
  completed back to rejected (`TaskProgress.LateRejectGoesBack`, `Witnesses.CompletedThenRejected`).
- A request whose id could not be saved is spooled again after a restart
  (`Admission.UnsavedArrivesTwice`).
- `glob_match` compares characters before it looks for `*`, so a `*` in the text can be taken
  literally. For every text holding one, a pattern is given that should match and does not
  (`Glob.StarInText`, `Glob.ExactForStarFreeTexts`).
- A record that is routed while it has a wake file gets a second one beside it: by `owl route`, and by
  itself when a pull that failed after the inbox write is repeated (`pull_once`, src/pull.rs:202-205 and
  284-299, routes again at 388-389). `WakeRuns.RouteKeepsIff` says when a route keeps exclusivity,
  `WakeRuns.ExclusiveIff` when a run does, `WakeWitness.RepeatedPullWakesTwo` is a run that does not.
- A wake whose routing cannot be saved is forgotten: the next route wakes the same session again
  (`WakeRuns.UnsavedIsWokenAgain`).
- An answer's id reused by another contact replaces the stored answer
  (`Delivery.ReusedIdOverwrites`); the runs of `Delivery` assume it away.
- A systemd unit whose paths hold the plist key is read as a plist, and one whose binary path ends
  in a backslash is read past its closing quote (`UnitRoundTrip.OwlIsSafe`, `UnitRoundTrip.HomeIsSafe`).
- An event log that starts with a `state-seen` entry can show two equal ones in a row after trimming
  (`EventLog.PollAnchorRepeats`, `EventLog.SafeAnchors`).
- A retention shorter than twice the freshness window accepts a replay (`Replay.ShortRetentionReplays`).

## Assumptions shared by the run theorems

- Ids the own machine makes (version 7 UUIDs) are new to the spool. Where a request's whole life is
  followed, its id arrives once; `Admission.ArrivesOnce` derives this from the table of seen ids.
- Commands on one record do not interleave with an attempt in the middle of that record; everything
  else interleaves freely.
- An ingest works on what is left of an earlier listing of `asks/`, whose entries are as listed or
  gone; `Listings.ListingStays` derives this from the runs, `PullRuns.PullContinuesRun` for whole pulls.
- A signature verifies against the key of the one who made it: only the responder signs with its key.
- A fetched envelope may be old, repeated, forged in any way or unrelated; an ack may be lost. The
  requests and the genuine replies of other contacts do not reuse the id of an answer of the responder
  (version 7 UUIDs; `Delivery.ReusedIdOverwrites` shows what happens when one does).
- The runs of session routing take any steps in any order with any write failing. Where a result needs
  more, its statement names the condition on each step (`WakeRuns.StepKeeps`, `WakeRuns.StepSaves`): a
  wake file is added only where no other stays, and its routing is saved with it. `owl route` and a
  repeated pull can break the first.

## Model

| member | source | states |
|---|---|---|
| Exchange.ExistingAnswer | src/answer.rs:154-163 | names the least id in `outbox/` whose record answers the request, and nothing exactly when there is none |
| Outcomes.SignOutcome | src/answer.rs:485-571 | for every record and every failing write: an envelope is signed exactly for a drafted request to us without one, its draft of the shape its kind asks for; it carries the drafted text, its kind, addressee, thread and request to the asker, and is cached exactly for a question without a snippet that opened its thread |
| Outcomes.CloseOutcome | src/answer.rs:572-605 | one log line naming asker, request and mode unless the log has one for the request, then the record finished as answered, naming its answer, as far as the writes go |
| Outcomes.SendOutcome | src/answer.rs:467-613 | a whole send on a ready record: the drafted text spooled, the line logged, the record answered in `done/` |
| OutcomeRuns.SpooledIsWhatWasDrafted | src/answer.rs:514-571 | at every moment of every run an envelope in `outbox/` was signed by a send, by hand or by the scheduler, of a record drafted at that moment, and says to its asker the text drafted then |
| OutcomeRuns.SentIsWhatWasDrafted | src/answer.rs:514-571 | over every run of two homes, whatever the responder ever had in `outbox/`, and so whatever the asker holds of it, says the text drafted for the request when it was signed |
| Outcomes.PostOutcome | src/server.rs:690-790 | which admitted requests are answered from the cache (questions under manual or auto, without a snippet, opening their thread, their text answered before) and that every other one is put into `inbox/` as it came, pending or held |
| Outcomes.AutoDraftOutcome | src/auto.rs:48-124 | an attempt touches a record only if it is a pending question, the responder is on and the peer is under auto; it is then drafted with the text or, without one, noted as failed |
| OutcomeRuns.AutomaticNeedsAuto | src/auto.rs:48-144 | in every run, what the scheduler signs or logs it does with a record it drafted earlier in the run, then a pending question of a peer then under auto, with the responder on |
| Outcomes.FailedSendOutcome | src/auto.rs:129-144 | after a failed send the record stays drafted beside its envelope and is pending without its draft where there is none |
| Outcomes.TaskOutcome | src/server.rs:950-1015 | the caller's request in `inbox/`, else the first reply addressed to it, else its request in `done/`, decides the task, and its state decides which of the four it is; nobody else's record does |
| OutcomeRuns.TaskSays | src/envelope.rs:379-393 | at every moment of a run without a late reject: submitted while held, working while pending or drafted, then completed if answered and rejected if denied or rejected |
| OutcomeRuns.FinalTask | src/server.rs:950-1015 | however a request leaves `inbox/`, from then on, before and after acks and expiries, its asker sees it rejected if by `owl deny` or `owl reject` and completed if by a send |
| OutcomeRuns.PollOutcome | src/server.rs:950-1050 | a poll shows a refusal exactly when the deciding record is in no open or answered state, or there is none and the asker is not answered |
| Outcomes.RejectOutcome | src/cli/reject.rs:11-22 | any record of `inbox/` goes to `done/` as rejected, whatever its state, as far as the writes go |
| Outcomes.DraftOutcome | src/cli/draft.rs:49-137 | exactly a pending or drafted request without an envelope takes a draft, of the shape of its kind |
| Outcomes.IngestOutcome | src/pull.rs:238-299 | verdict, inbox, cache under the question's hash, ask and done for every envelope and every failing write |
| Sending.EveryRunIsOrderly | src/answer.rs:467-613 | at every moment of every run with any write failing: at most one envelope per request in `outbox/`, at most one log line per request, every spooled envelope our own signed reply, and a received request finished as answered has its log line and an answer that was spooled |
| Sending.StepKeepsInv | src/answer.rs:126-149 | each single step, whichever of its writes fail, keeps those facts |
| Accounting.EveryRunBalances | src/pull.rs:451-474 | conservation: for every request, envelopes signed equals envelopes in `outbox/` plus envelopes moved out by ack or expiry |
| OneRequest.SignedIsBounded | src/answer.rs:467-613 | in every run at most one envelope is signed for a request beyond those that have left `outbox/` |
| Accounting.SendSignsExactly | src/answer.rs:514-571 | a send signs an envelope exactly when the record passes the gates, the draft fits, the outbox write succeeds and no envelope for it is in `outbox/` |
| Accounting.RetryAfterAckSignsAgain | src/answer.rs:154-163 | for every sendable record: send failing at the log, ack, send again leaves two envelopes signed and one log line |
| Witnesses.SecondEnvelope | src/answer.rs:467-613 | a run from an empty home, post, draft, failing send, ack, send, with two envelopes signed for a request that arrived once |
| Attempts.AttemptsNeverOverlap | src/auto.rs:165-190 | over every interleaving of triggers and scans, one attempt per record, claims and attempts agree, and an attempt finds the record it drafted |
| OneRequest.RunFacts | src/auto.rs:124-144 | a record that is pending or held never has an envelope in `outbox/`, at any moment of any run |
| OneRequest.SignedAutomaticallyOnce | src/auto.rs:96-146 | if no ack or expiry falls inside an attempt, at most one envelope is ever signed automatically for a question |
| Witnesses.SignedAutomaticallyTwice | src/auto.rs:128-144 | a run with an ack inside an attempt in which two are |
| Admission.ArrivesOnce | src/server.rs:660-676 | behind the table of seen ids a request reaches the machine once over any resending and restarts, if its sender signed one time stamp under the id, no pulled answer has it, and the id was saved or the daemon kept running |
| Admission.AdmittedIsSignedOnce | src/server.rs:801-806 | so behind the table the automatic answer is signed once, without assuming that ids arrive once |
| Admission.UnsavedArrivesTwice | src/server.rs:801-806 | an id neither saved nor kept in memory lets the same request in twice |
| OneRequest.SignedOnce | src/answer.rs:467-613 | if none of its envelopes leaves `outbox/` while the request is in `inbox/`, a request is answered with at most one envelope ever, by whomever |
| Consent.NoReplyWithoutConsent | src/server.rs:305-329 | every signed reply follows a draft, which follows an admission under manual or auto or a release by `owl allow`; replies to content and tool requests are signed and logged as manual; cached replies only under manual or auto |
| Consent.EveryRunAgrees | src/cli/draft.rs:76-95 | what the directories say about consent always agrees with the history of the run |
| Consent.OpenWasConsented | src/cli/allow.rs:54-71 | in every run, a pending request has its arrival in the history and, unless it opened on arrival, the owner's release after it; a drafted one also its draft after that |
| TaskProgress.TaskNeverGoesBack | src/server.rs:950-1015 | from acceptance on the asker always finds its task, and over any run without a late reject it only moves along submitted, working, and completed or rejected for good |
| TaskProgress.LateRejectGoesBack | src/cli/reject.rs:11-22 | rejecting any tracked record whose envelope is spooled shows the task completed, and after the ack rejected |
| Witnesses.CompletedThenRejected | src/cli/reject.rs:11-22 | a run from an empty home in which the asker sees its task completed and then rejected |
| TaskProgress.TaskIsFound | src/server.rs:950-1015 | over every run, late rejects included, the task of an accepted request is found at every later moment |
| Delivery.AckedIsHeld | src/server.rs:867-896 | over every run of both machines: what the responder moved to `done/` on an ack is, as sent and with its signature, in the asker's `inbox/` or `done/` |
| Delivery.AskIsNeverLost | src/pull.rs:337-446 | an ask stays in `asks/` until a reply naming it and signed by the asked peer is stored, or that peer was seen to answer with a rejected task |
| DeliveryWitness.AskedAndAcked | src/cli/ask.rs:221-251 | a run in the order the commands take, the question at the responder first, the ask stored then, answer, pull and ack: `acked` is not empty at its end, and `Delivery.AckedIsHeld` speaks of it |
| Delivery.ForgeryChangesNothing | src/pull.rs:246-257 | a fetched envelope that is no reply or not signed by the contact leaves the whole machine as it is, whatever id it claims |
| Delivery.ReusedIdOverwrites | src/pull.rs:202-205 | a genuine reply of another contact under the id of a stored answer takes its place exactly if its inbox write succeeds |
| Delivery.IngestWritesIffGenuine | src/pull.rs:238-299 | an envelope changes anything only if its signature is the contact's, it is a reply, and it answers an open ask of that contact; it is then stored as it is |
| Delivery.StepKeepsAsk | src/pull.rs:238-299 | no step of the asker removes an ask, except an ingest that has stored its verified reply, or the closing of a declined one |
| Batches.ListedMeans | src/spool.rs:97-122 | a listing is strictly ordered by id and holds exactly the ids whose records pass the filter |
| Batches.FirstListedExists | src/answer.rs:154-163 | the head of the filtered listing is the existing answer |
| Batches.AllowOpensExactly | src/cli/allow.rs:54-71 | exactly the held records of that peer before the first one that cannot be written become pending, and no directory but `inbox/` changes |
| Batches.DenyClosesExactly | src/cli/deny.rs:16-33 | exactly the held records of that peer before the first one that cannot be finished leave `inbox/` for `done/` as denied, that one as far as its writes went, and nothing else changes |
| Batches.ExpireMovesExactly | src/pull.rs:451-474 | exactly the envelopes strictly older than the time to live whose move succeeds leave `outbox/` for `done/`, a failure stopping none of the others; unreadable time stamps are kept |
| Pulls.PullAnswersExactly | src/pull.rs:379-410 | of the listed asks exactly those leave `asks/` for `done/` that are still in it and are answered by a fetched envelope whose writes get as far as the move, decided by the first such envelope, and exactly those whose new state is written too leave the list |
| Pulls.PullStoresLast | src/pull.rs:379-410 | the last of the envelopes under one id that reply to an ask still listed at their turn is what `inbox/` holds under it |
| Pulls.PullStoresNone | src/pull.rs:379-410 | an id under which no such envelope comes keeps what `inbox/` has of it |
| Pulls.DeclineClosesExactly | src/pull.rs:411-438 | exactly the asks of the contact still listed and still in `asks/`, seen as rejected, whose move succeeds go to `done/`, as declined if that is written, and then leave the list; nothing else changes |
| Pulls.PullOutcome | src/pull.rs:379-438 | both loops together: each ask is answered, else declined, else as it was, and what decides it |
| PullRuns.PullContinuesRun | src/pull.rs:337-438 | from any moment of any run, on a listing from any earlier one, a pull is a sequence of the machine's ingests, each on a part of the listing as the machine asks, and then of its declines |
| PullRuns.PullDelivers | src/pull.rs:337-438 | from any moment of any run of both machines, a pull among whose envelopes is a reply of the responder to an open ask, and whose writes for it succeed, leaves the ask answered in `done/` and a verified reply to it held |
| Listings.ListingStays | src/pull.rs:345-420 | in every run, whatever else happens in between, each entry of an earlier listing of `asks/` is still as listed or finished in `done/` |
| SpoolStore.Store.Put | src/spool.rs:72-82 | the record is there afterwards, or nothing changed |
| SpoolStore.Store.SetState | src/spool.rs:151-161 | the stored record has the new state and is otherwise as it was; a missing record is an error and changes nothing |
| SpoolStore.Store.MoveTo | src/spool.rs:198-203 | the record is in the target and no longer in the source, or nothing changed |
| SpoolStore.Store.List | src/spool.rs:97-122 | the loop yields the ordered, filtered listing |
| SpoolStore.Store.FindExisting | src/answer.rs:154-163 | the search through `outbox/` finds the existing answer |
| SpoolStore.Store.HasOutgoingLine | src/answer.rs:439-451 | true exactly when the log has a line for the request |
| SpoolStore.Store.Finish | src/answer.rs:126-149 | first the copy in `done/`, then the inbox file goes; the result and all that is left at each failure |
| SpoolStore.Store.Send | src/answer.rs:467-613 | the new home and the result, for every combination of failing writes, are those whose content the three send outcomes above state |
| SpoolStore.Store.Draft | src/cli/draft.rs:49-137 | the drafted record is written exactly through the gates on kind, state and existing answer |
| SpoolStore.Store.Edit | src/cli/edit.rs:17-95 | the draft's text is replaced unless an envelope is spooled, or the editor failed or left only blanks |
| SpoolStore.Store.Reject | src/cli/reject.rs:11-22 | the record is finished as rejected, whatever its state |
| SpoolStore.Store.DenyHeld | src/cli/deny.rs:16-33 | the loop over the held records is the one the exact statement above is about |
| SpoolStore.Store.AllowHeld | src/cli/allow.rs:54-71 | the loop over the held records is the one the exact statement above is about |
| SpoolStore.Store.PostQuestion | src/server.rs:690-790 | where an admitted request ends, as the outcome above states it, and that the peer gets the cached answer to its text back exactly when it is served from the cache and its id was remembered |
| SpoolStore.Store.AckOutbox | src/server.rs:867-896 | only the addressee's ack of a reply moves it to `done/`, the state written after the move |
| SpoolStore.Store.ExpireOutbox | src/pull.rs:451-474 | the sweep with its age test is the one the exact statement above is about |
| SpoolStore.Store.Ingest | src/pull.rs:238-299 | verdict and new home, for every combination of failing writes; the ack goes out on `Ingested` only |
| SpoolStore.Store.PullItems | src/pull.rs:379-410 | the loop over the fetched envelopes is the one the exact statements above are about |
| SpoolStore.Store.CloseDeclined | src/pull.rs:411-438 | the loop over the asks still open is the one the exact statement above is about |
| SpoolStore.Store.PullPeer | src/pull.rs:379-438 | one loop, the ordered listing of what is left for this peer, and the other loop |
| SpoolStore.Store.Attempt | src/auto.rs:96-146 | one attempt: skipped unless the outcome above lets it run, failed back to pending, left drafted beside its envelope, or sent |
| SpoolStore.AttemptIsThreeLegs | src/auto.rs:96-146 | left to itself the attempt is the three legs the machine interleaves, with the same final home |
| SpoolStore.Scheduler.Spawn | src/auto.rs:201-207 | the claimed set and the spawned attempts after the call are those of the machine's spawn, nothing happening to a claimed record |
| SpoolStore.Scheduler.End | src/auto.rs:210-214 | claimed set and attempts after a task are those of the machine when an attempt ends |
| SpoolStore.Scheduler.RunAttempt | src/auto.rs:201-214 | claim, attempt and release together take the machine through spawn and the attempt's legs, the record free again |
| WakeRuns.ExclusiveIff | src/route.rs:500-548 | a run, whatever its steps and failing writes, has at every moment each wake file of a record only in the directory of the session its routing names, if and only if each step meets its condition on the board before it |
| WakeRuns.OneWakePerRecord | src/route.rs:500-548 | while the conditions are met a record has a wake file in at most one session directory, and its routing names that session |
| WakeRuns.RouteKeepsIff | src/route.rs:500-548 | on any such board and with either write failing, a route, by hand, on arrival or repeated, keeps exclusivity exactly when it adds no wake file beside another or without saving the routing, and takes no record from a session whose file stays |
| WakeWitness.RepeatedPullWakesTwo | src/pull.rs:379-389 | a run without a failing write of the routing in which a repeated pull leaves two sessions with a wake file for one record |
| WakeRuns.EveryRunTried | src/route.rs:515-547 | in every run without any condition no session is in a record's `tried` twice, and the session that has the record is among them |
| WakeRuns.NeverWokenTwice | src/route.rs:515-547 | if every wake is saved with its routing, repeated routes included, no session is woken twice for a record between two releases |
| WakeRuns.UnsavedIsWokenAgain | src/route.rs:536-547 | after a wake whose routing could not be saved, the next route wakes the same session again |
| WakeTicks.TickOutcome | src/route.rs:627-698 | after a tick on any board, any write failing: gone records forgotten; seen, unreadable and leased ones untouched; every other without its old wake file and with the least untried live session by checkout, heartbeat and id, with none if none is left, or, when it cannot be rendered or written, still under its old session's name |
| WakeTicks.TickedEach | src/route.rs:643-697 | records do not disturb each other in a tick |
| WakeTicks.BacklogIsHeld | src/cli/inbox.rs:597-608 | after a session starts alive with its marker written every unseen record whose routing can be saved has a live holder |
| WakeOutcomes.LeaseHolds | src/route.rs:660-689 | a tick leaves a record as it is while it is seen, unreadable, or with a session that is registered, not gone, with a heartbeat younger than the limit and a lease that has not run out |
| WakeOutcomes.LeaseEnds | src/route.rs:660-689 | otherwise the session it is with, having been tried as every run has it, loses its wake file |
| WakeOutcomes.LeasePasses | src/route.rs:660-692 | and the record goes to the next session, with a wake file and a new lease, if one is left and can be told |
| WakeOutcomes.TargetOutcome | src/route.rs:515-535 | the next session is a live one not tried, in the record's checkout before elsewhere, then with the newest heartbeat, then with the least id; none exactly when none is left |
| WakeOutcomes.RouteOutcome | src/route.rs:500-548 | every branch of a route, said of wake files and routings, with either write failing |
| WakeOutcomes.SweepOutcome | src/route.rs:405-421 | exactly the live sessions stay, with their markers and all their wake files |
| WakeOutcomes.BacklogOutcome | src/route.rs:567-593 | every unseen record no live session has goes to the session that starts, noted as tried, and every other is left |
| WakeOutcomes.EndOutcome | src/route.rs:597-620 | a session's directory goes, and exactly the records it had are without a session |
| WakeOutcomes.StepOutcome | src/cli/inbox.rs:597-608 | each step of a run is the outcome of its operation; a session start is marker, sweep and backlog in this order |
| Routing.Target | src/route.rs:515-535 | the first candidate of the order, and none exactly when there is no candidate |
| WakeDesk.Desk.FirstCandidate | src/route.rs:515-535 | the search finds that candidate |
| WakeDesk.Desk.Route | src/route.rs:500-548 | routing, wake files and everything else after the call, on every branch and for either write failing |
| WakeDesk.Desk.Release | src/route.rs:553-562 | no wake file and no routing of the record is left, all others are |
| WakeDesk.Desk.LeaseTick | src/route.rs:627-698 | the walk over the routings in order is the tick whose outcome is stated above, with any of its writes failing |
| WakeDesk.Desk.TickRecord | src/route.rs:643-697 | one turn of that walk, with either write of the route failing: released, left alone, or its wake file removed and routed again |
| WakeDesk.Desk.Sweep | src/route.rs:405-421 | exactly the live sessions and their wake files stay |
| WakeDesk.Desk.AssignBacklog | src/route.rs:567-593 | exactly the unseen records without a live holder whose routing can be saved go to the session, without a wake file |
| WakeDesk.Desk.SessionStart | src/cli/inbox.rs:597-608 | marker, sweep and backlog, in that order, each whether or not the marker and the routings can be written |
| WakeDesk.Desk.SessionEnd | src/route.rs:597-620 | the directory goes and exactly the routings naming the session that can be saved let go |
| Replay.AcceptedOnce | src/envelope.rs:418-468 | with a retention of at least twice the window, over every run of requests, failing writes and restarts a payload is accepted at most once |
| Replay.ShortRetentionReplays | src/envelope.rs:13-14 | with any shorter retention a run accepts one payload twice |
| Replay.RetentionIsExact | src/envelope.rs:13-14 | at most once over all runs if and only if the retention is at least twice the window; 600 and 300 meet it |
| Replay.RequestOutcome | src/server.rs:660-676 | refused exactly when the time stamp is missing or more than the window away on either side, the id is known, or a later gate refuses; else accepted and remembered, on disk if it can be saved |
| Replay.PruneOutcome | src/envelope.rs:433-448 | a restart keeps exactly the entries no older than the retention, in order |
| Replay.SeenIds.PostQuestion | src/server.rs:660-676 | the checks in their order are the step of the runs above, in memory and on disk, for every failing write |
| Replay.SeenIds.Load | src/envelope.rs:433-448 | the table read back holds exactly the entries within the retention, in order |
| Replay.SeenIds.Contains | src/server.rs:668-676 | true exactly when the id is in the table |
| Replay.SeenIds.Insert | src/envelope.rs:452-458 | false and no change exactly for a known id |
| RateLimit.TokenBucket.Take | src/server.rs:178-193 | the imperative take is the step the bounds and the hint below are proved about, rate 0 included |
| RateLimit.TakeOutcome | src/server.rs:178-193 | the tokens after a take and its verdict, for a clock that runs backwards and a rate of 0 too |
| RateLimit.RateBound | src/server.rs:163-194 | in any interval of any sequence of calls at most r + r (b - a) / 3600 takes are admitted |
| RateLimit.RateBoundTight | src/server.rs:163-194 | a full bucket reaches that bound for every whole number of tokens flowing in |
| RateLimit.RetryHintExact | src/server.rs:178-193 | the hint is the least whole number of seconds after which a take succeeds, refused takes in between or not |
| RateLimit.RefusalsDoNotDelay | src/server.rs:178-193 | refused takes do not change when the next one succeeds |
| RateLimit.SoundStays | src/server.rs:178-193 | tokens stay between none and the rate |
| EventLog.Record.Push | src/events.rs:67-97 | the push in place, trimming loop included, is the step the histories below are made of |
| EventLog.PushOutcome | src/events.rs:67-97 | a push changes nothing exactly when it is a poll showing the state of the newest poll; else it is appended, and of more than 200 entries the first and the newest 199 stay |
| EventLog.Record.LastSeen | src/events.rs:105-115 | the state of the newest `state-seen` entry |
| EventLog.LogOfHistory | src/events.rs:67-97 | for every history not opening with a poll: 1 to 200 entries, the first kept for ever, the others the newest appended in order, no two successive polls with equal state |
| EventLog.PollAnchorRepeats | src/events.rs:67-97 | for every first entry that is a poll, a history whose log shows two equal polls in a row |
| EventLog.SafeAnchors | src/events.rs:25 | no repeated poll over all histories if and only if the first entry is no poll |
| Calendar.CivilOfDays | src/envelope.rs:525-549 | a valid date comes back from its day number |
| Calendar.DaysOfCivil | src/envelope.rs:525-549 | every day number gives a valid date and comes back from it |
| Calendar.CivilCountsDays | src/envelope.rs:538-549 | day 0 is 1970-01-01 and the next number is the next day of the Gregorian calendar |
| Calendar.CivilKeepsOrder | src/envelope.rs:538-549 | later day numbers are later dates |
| TimeStamps.StampRoundTrip | src/envelope.rs:485-523 | for every 64-bit time, reading the printed stamp gives the time back exactly up to 9999-12-31T23:59:59Z and nothing beyond |
| TimeStamps.PrintedInstant | src/envelope.rs:485-523 | what is printed is a real date and time of exactly that instant, for the upper half of the 64-bit range the one 2^64 seconds earlier |
| TimeStamps.ReadRoundTrip | src/envelope.rs:485-523 | a readable stamp is printed back exactly when its date exists and its second is below 60 |
| TimeStamps.StampsSortByTime | src/envelope.rs:514-523 | printed stamps compare as texts exactly as the times do |
| Glob.GlobMatch | src/cli/history.rs:26-50 | the loop returns what the one-star scan computes, and terminates |
| Glob.ScanIsMatch | src/cli/history.rs:26-50 | for texts or patterns without `*` the scan is the recursive meaning of `*`, `?` and literals |
| Glob.ExactForStarFreeTexts | src/cli/history.rs:26-50 | the scan is right for every pattern if and only if the text has no `*` |
| Glob.StarInText | src/cli/history.rs:32 | for every text with a `*`, a pattern that should match and is refused |
| Glob.Backtrack | src/cli/history.rs:38-41 | giving the star one more character loses no match |
| Glob.LaterStarSuffices | src/cli/history.rs:35-37 | forgetting an earlier star at a later one loses no match |
| Der.PubkeyIffLayout | src/tls.rs:116-146 | the walk gives a key exactly when the certificate splits into the nested fields in order, with an Ed25519 key info without parameters holding it |
| Der.ReadIffSplits | src/tls.rs:80-98 | one field is read exactly when the input starts with its tag, a length in one of the accepted forms and its content |
| Der.OnlySpkiMatters | src/tls.rs:116-146 | the verdict on any certificate is the verdict on its key field, whatever the other fields hold and in whatever form lengths are written |
| Der.PrintedKeyReadsBack | src/tls.rs:116-146 | a certificate printed with minimal lengths gives its key back |
| Der.KeyInfoOctets | src/tls.rs:71-76 | the key info is the one section 10.1 of RFC 8410 shows, and the fields in front of it have the tags of section 4.1 of RFC 5280 |
| Der.LengthOctetsSayLength | src/tls.rs:80-98 | the printer's length octets are accepted for that length, and no accepted form is shorter |
| UnitFile.UnitProgram | src/cli/doctor.rs:205-231 | the scanning loop and the branches around it compute the reading the round trips below are about |
| UnitReader.BareProgramIsRead | src/cli/doctor.rs:205-231 | a unit whose program stands without quotes is read up to the first blank after it, whatever the margin, the gap and the line end |
| UnitRoundTrip.UnquoteUndoesQuote | src/cli/doctor.rs:196-201 | the two sequential replaces undo the two of the printer, for every text |
| UnitRoundTrip.UnescapeUndoesEscape | src/cli/install.rs:54-59 | the four replaces of the reader undo the four of the printer, for every text |
| UnitRoundTrip.SystemdRoundTrip | src/cli/doctor.rs:205-231 | with the plist key in neither path the systemd unit gives the binary's path back if and only if that path has no newline and no trailing backslash |
| UnitRoundTrip.KeyInPath | src/cli/doctor.rs:206-215 | with the key in a path, and `<string>` in neither, the reader finds nothing |
| UnitRoundTrip.SystemdExactly | src/cli/install.rs:103-117 | beside any home without the key the binary's path is read back if and only if it is one line without the key and without a trailing backslash; for a path that holds the key itself, if the home has at most two of `<` and `&` |
| UnitRoundTrip.OwlIsSafe | src/cli/install.rs:103-117 | a binary's path is read back beside every home without the key if and only if it is such a path |
| UnitRoundTrip.HomeIsSafe | src/cli/install.rs:103-117 | every such path is read back beside a home if and only if the home does not hold the key |
| UnitRoundTrip.HomeDecides | src/cli/doctor.rs:206-215 | with the key in the home only, what is read does not depend on the binary |
| UnitRoundTrip.LaunchdRoundTrip | src/cli/install.rs:68-102 | the plist gives the binary's path back for every binary and every home |
| UnitRoundTrip.TagOccurs | src/cli/install.rs:62-64 | a tag occurs in the systemd unit exactly when it occurs in one of the paths |
| Utf8Cut.CutAtCharBoundary | src/content.rs:270-279 | the longest prefix of at most `max` bytes that ends a character; itself valid; at most 3 bytes short |
| Utf8Cut.BoundaryEnds | src/content.rs:275 | the byte test for a boundary is the end of a decoded character, in valid text |
| Utf8Cut.Store | src/content.rs:134-151 | what is stored is the longest valid prefix within the limit, and marked as truncated exactly when bytes were lost |

## Left out

- Network transports, TLS and iroh wiring, child processes, git, notifications and terminal output: a reply, a drafted text, a policy, a verdict of the redaction rules or an unreachable peer is a parameter.
- Cryptography and hashing: a signature is the name of the key it verifies against, a hash is an opaque value; what is signed is the whole payload.
- JSON encoding and corrupt or unreadable files: records are typed and readable; a write or a log append happens entirely or not at all.
- Commands of different processes on one record at the same time: the code has no lock there.
- Error texts, exit codes and printed tables; of a task, the status text.
- Event lists, `seen` flags and times on the records of the exchange: `EventLog` treats the list and `Routing` the flag.
- `owl ask` when the responder answers from its cache at once: the answer then goes straight to `done/`, which `Delivery` does not follow.
- Contact lookup, the liveness of peers and the skip window of a pull: a peer that is not pulled takes no step.
- Failing removals of wake files, routings and session directories: the code ignores their results, and here they succeed.
- Session ids, paths and record ids of routing as texts: they are numbers with the same order and equality, and a directory is its canonical path.
- RateLimit.TokenBucket.Take: exact arithmetic instead of rounded floating point, and calls arrive in the order of their clock readings.
- Replay.AcceptedOnce: a request whose id could not be saved is an error to its sender and not counted as accepted; `Admission.ArrivesOnce` counts it.
- Delivery.AckedIsHeld: requests and genuine replies of other contacts are assumed not to reuse the id of an answer of the responder; `Delivery.ReusedIdOverwrites` is what happens otherwise.
- PullRuns.PullDelivers: the fetch itself, and whether the responder is reached, are not modelled; the envelopes are given.
- TaskProgress.TaskNeverGoesBack: the status of a failed automatic attempt is working, as in the code; its text is not modelled.
- UnitRoundTrip.SystemdExactly: beside a home with three or more of `<` and `&`, a binary path that itself holds the key is not decided one by one; the reader then unescapes whatever lies between two tags, which can even be the right path.
- UnitFile.UnitProgram: paths are their displayed text, so one that is not valid Unicode is taken after the lossy conversion.
- The choice of policy in `owl allow` (`policy_for`), the checks of a request's shape, and the derived events of old records: decisions readable from one body.
- Blame ranking, contact files, update, setup and the MCP server: plumbing around what is modelled.
