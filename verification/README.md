# Fathomgate: a verified model

Fathomgate is a policy proxy between agents and the servers they call tools on. This project models the
parts of it that are state machines or streams, and proves what they keep over every run.

- **Agent sessions and call admission.** `Sessions` is the idle clock of one session, `Calls` the admission of
  calls under two caps, `Listener` the session code of the HTTP listener, each a class with the fields the
  source changes in place. `Lifecycle` is the whole of it as one state machine whose steps are the critical
  sections under the three locks; a lock held over several sections is a `Hold`, and every step that takes only
  another lock interleaves with it. `LifecycleSafety` proves an inductive invariant and, from it, the promises
  over all interleavings. The methods of `Listener` are proved to be runs of those steps,
  and `Admission` proves the same of the methods of `Calls`. `RecentUse` proves which session "least recently used"
  picks, from the steps of the run alone.
- **Attribution of upstream prompts** (`Attribution`). The calls in flight, and the table that stands for the
  calls that have ended, against the full history of them.
- **The secret scrubber and the line writer** (`Scrub`, `Sanitize`). The imperative forms are proved equal to
  functions on the whole input, and those to what they are for: no chunking shows, no occurrence is copied out,
  no byte is lost, no character is cut in half.
- **The progress relay** (`Progress`). Token bucket, bounded queue, held-back note, sender and finish.
- **The audit log** (`Canonical`, `Chain`, `AuditLog`). The canonical printer with a parser that inverts it, the
  bytes a hash covers, the verifier, the writer, and what verifying says about a log.
- **The device cap** (`Targets`, `DeviceCap`, `CapExactness`). The target names of a call, the policy, the gate's
  decision and the counters between calls, and for which policies the count and the cap are exact.
- **Reading text as a label** (`Label`, `Encodings`). Decoding to a fixed point, with the length as measure, and an
  encoder for every encoding that it undoes.
- **Rounds of input** (`Rounds`). The sealed state and the bounds along any chain of retries.

`Prelude` holds shared names. `dafny verify dfyconfig.toml` checks everything.

## Assumptions

- A step is one critical section. Session ids are never reused, and go-sdk's `Wait` returns only after the session
  is closed and no call on it can reach `admit` any more.
- Time is an integer in `Attribution` and `Rounds` and a real in `Progress`. `Attribution.AttributionIsSound` asks
  for a clock that does not run backwards; `Attribution.SummaryIsExact` says what holds without that.
- SHA-256 is any function from text to text. `AuditLog.ChainUnique` asks only that it has no collision among the
  inputs that the two logs at hand hash, since no function to 64 characters is injective.
- Signatures are a pair of functions that match. AES-GCM is ideal: a ciphertext opens only if this process sealed
  it under that nonce and additional data; nonces are never drawn twice.
- Decoding a log line from JSON is not part of the model: a line arrives decoded, with its length. Text in
  `Canonical` is a sequence of Unicode scalar values, whose order is the byte order of their UTF-8. Text in `Label`
  is bytes.

## Where the code is exact, and where it is not

- The writer does not bound a line, and the verifier stops at a line of 16 MiB. So a log that a writer produced
  verifies, and can be opened again, exactly when every append fitted that bound (`AuditLog.RunsVerify`). One event
  with a reason of that length breaks it (`AuditLog.LongEventBreaksLog`).
- A decoding pass reads each escape as one rune. It undoes the encoding of a byte at a time exactly for ASCII text,
  whichever of the seven ways of writing a rune is used (`Label.PercentInverts`, `Encodings.EveryStyleInverts`), and
  the encoding of a rune at a time for every rune that the way can write (`Encodings.EncodePass`).
- A key remembers 4096 device names, and counts a device beyond them again at each call, as the comment on
  `maxTouchedNames` says. What that does to a policy depends on its `max_devices`, when it sets one. The count is the number of
  distinct devices in every run exactly when `max_devices` is at most 4097 (`CapExactness.CountIsExact`), and the cap
  refuses exactly the calls that would bring the distinct devices over it exactly when `max_devices` is at most 4096
  (`CapExactness.RefusalIsExact`). Beyond each there is a run that shows it: calls on 4097 devices, then again and
  again on the last (`CapExactness.CountGoesAhead`, `CapExactness.RepeatIsRefused`). The cap is never too lenient.
- The additional data that binds a sealed state is unambiguous for any principal name, not only for the
  names that are valid (`Rounds.AadDecides`).

## Model

| member | source | states |
|---|---|---|
| LifecycleSafety.InvKept | internal/proxy/http.go:676-1262 | every critical section, in any order the locks allow, keeps the invariant of sessions, handoff, reservation and slots |
| LifecycleSafety.NoCallAfterRetirement | internal/proxy/calls.go:88-126 | once eviction or the idle clock has retired a session, no call on it is admitted again in any interleaving |
| LifecycleSafety.VictimIsIdle | internal/proxy/http.go:833-855 | the session claimed for eviction belongs to the reserving principal and has no POST, no GET and no call in flight |
| LifecycleSafety.RetiredIsTransient | internal/proxy/http.go:962-984 | nothing re-enters the retired set after its watcher's forget, and a retired session is one whose watcher has still to come, unless the limits were closed first |
| LifecycleSafety.HandoffIsExact | internal/proxy/http.go:1012-1071 | before registration the early counts are the principal's requests in progress, afterwards the session's counters are; the idle clock runs exactly when armed, unused and not stopped |
| LifecycleSafety.ExpireOnlyWithoutPosts | internal/proxy/http.go:1248-1262 | an expiry that retires a session does so with none of its principal's POSTs in progress |
| LifecycleSafety.EvictedStaysIdle | internal/proxy/http.go:823-832 | an evicted session never has a call in flight |
| LifecycleSafety.ExpiryRetires | internal/proxy/http.go:1248-1262 | an expiry that fires while the clock runs retires the session and stops its clock for good; any other changes nothing |
| LifecycleSafety.ClockRunsUntilOver | internal/proxy/http.go:1190-1223 | once armed, the clock of a session with no POST in progress runs until the session is retired or has ended |
| LifecycleSafety.LiveUntil | internal/proxy/http.go:962-984 | a session leaves live only with its watcher or unserved, an evicted one only when its tombstone is dropped, and only a reservation evicts |
| LifecycleSafety.TombstoneStays | internal/proxy/http.go:1041-1055 | in every run an evicted session refuses every request of its principal until its tombstone is dropped |
| LifecycleSafety.ClosedIsNotServed | internal/proxy/http.go:985-992 | a session settled after the limits closed is never watched and its clock never armed |
| LifecycleSafety.SlotsAreExact | internal/proxy/http.go:676-699 | the session counts are the unreleased slots, overall and per principal, within their caps; a session holds its own slot exactly until it is evicted or its end is settled |
| LifecycleSafety.Released | internal/proxy/http.go:683-692 | releasing a slot frees one place of its own principal the first time and nothing after that |
| LifecycleSafety.EvictionMakesRoom | internal/proxy/http.go:863-869 | evicting one session of the principal leaves room under both caps |
| LifecycleSafety.ReservationEnds | internal/proxy/http.go:725-745 | every step of a reservation brings it closer to its end, nobody else moves it back, and after one eviction the next step grants |
| RecentUse.StampsOrderUses | internal/proxy/http.go:1117-1120 | in every reachable state the sequence numbers order the sessions as their last uses in the run do, a use being a registration or the end of a POST or GET |
| RecentUse.ClaimedIsLeastRecent | internal/proxy/http.go:833-855 | in every interleaving the candidate tried for eviction is the one whose last use comes earliest in the run |
| RecentUse.LeastUsedIsLeastRecent | internal/proxy/http.go:833-855 | in every reachable state the least recently used idle session is the one whose last use comes earliest in the run |
| Listener.HttpHandler.ReserveSession | internal/proxy/http.go:719-762 | a slot is granted when there is room or an idle session of the principal to evict; at most one session, the least recently used idle one, is evicted; a refusal changes nothing; the invariant is kept |
| Listener.HttpHandler.ClaimFirst | internal/proxy/http.go:847-854 | claims the least recently used candidate with no call in flight, or finds that there is none |
| Listener.HttpHandler.ScanLive | internal/proxy/http.go:838-846 | collects exactly the principal's evictable sessions with their last use |
| Listener.HttpHandler.EvictLocked | internal/proxy/http.go:863-869 | marks the session evicted, stops its clock and gives its slot back |
| Listener.HttpHandler.Begin | internal/proxy/http.go:1041-1071 | counts a request on the live session or early, refuses its own principal's on an evicted session, and keeps the invariant |
| Listener.HttpHandler.End | internal/proxy/http.go:1056-1070 | takes the request back from wherever registration left it counted, records the use of its session, and keeps the invariant |
| Listener.HttpHandler.Register | internal/proxy/http.go:1012-1024 | moves the early counts of the session's id and principal into the session and drops them there |
| Listener.HttpHandler.Unregister | internal/proxy/http.go:967-981 | the watcher's section: the entry leaves live unless evicted, and the session is no longer retired |
| Listener.HttpHandler.ForgetEvicted | internal/proxy/http.go:918-924 | an evicted session's tombstone leaves live |
| Sessions.LiveSession.StartPOST | internal/proxy/http.go:1204-1212 | a POST pauses the clock, which runs exactly when armed, unused and not stopped |
| Sessions.LiveSession.EndPOST | internal/proxy/http.go:1214-1223 | counts the POST off, records the use, and restarts an armed clock of a live session when it was the last |
| Sessions.LiveSession.ArmClock | internal/proxy/http.go:1190-1202 | the clock starts once, and not under a POST in progress or after stop |
| Sessions.LiveSession.StopClock | internal/proxy/http.go:1226-1234 | the clock never runs again |
| Sessions.LiveSession.Expire | internal/proxy/http.go:1248-1262 | an expiry retires only a session with no POST in progress that was not stopped |
| Calls.CallLimits.Admit | internal/proxy/calls.go:88-126 | refuses in order of shutdown, retirement, session cap and principal cap; an admitted call is the only change, and is not cancelled |
| Calls.CallLimits.Release | internal/proxy/calls.go:88-126 | marks its call released and cancelled and changes no other; the second run does nothing |
| Calls.CallLimits.ClaimIdle | internal/proxy/calls.go:186-196 | retires a session exactly when it has no call in flight, in one step |
| Calls.CallLimits.Retire | internal/proxy/calls.go:204-218 | retires a session, cancels the unreleased calls on it, and leaves every other call as it was |
| Calls.CallLimits.CancelSession | internal/proxy/calls.go:150-167 | a DELETE cancels the unreleased calls of the session it names, and no other call, only when the session is the sender's own |
| Calls.CallLimits.Close | internal/proxy/calls.go:252-261 | every call is cancelled, nothing else about the calls changes, and none is admitted from then on |
| Calls.CancelIsExact | internal/proxy/calls.go:204-218 | cancelling what is in a session's entry cancels the unreleased calls of that session and touches no field of any other call |
| Admission.Admit | internal/proxy/calls.go:88-126 | admit is the admission step of the session state machine, with room when both caps have it |
| Admission.Release | internal/proxy/calls.go:88-126 | the first release of a call is the step that ends it, another is no step |
| Admission.ClaimIdle | internal/proxy/calls.go:186-196 | claimIdle is the step that tries a candidate for eviction |
| Admission.Retire | internal/proxy/calls.go:204-218 | retire is the step of an idle expiry, and cancels exactly the calls counted for the session |
| Admission.Forget | internal/proxy/calls.go:227-231 | forget is the watcher's step |
| Admission.CancelSession | internal/proxy/calls.go:150-167 | cancelling a session's calls ends none of them |
| Admission.Close | internal/proxy/calls.go:252-261 | close is the step that closes the limits |
| Calls.AdmitKeeps | internal/proxy/calls.go:88-126 | principals counts the admitted unreleased calls of each principal and an entry those of its session, within the caps, with no empty entry |
| Calls.ReleaseKeeps | internal/proxy/calls.go:88-126 | a release in any order frees one place of its own session and principal, once, and every unreleased call's entry stays the one in sessions |
| Attribution.AttributionIsSound | internal/proxy/input.go:565-594 | a prompt is let through to a call exactly when every ended call that has not expired came from that call's own agent session, told from what the calls came with, and was not folded into an overflow record |
| Attribution.SummaryIsExact | internal/proxy/input.go:516-534 | what the table says of the full history for any clock, also one that runs backwards |
| Attribution.RunSummary | internal/proxy/input.go:471-534 | every run of ends and prunes keeps the table a summary: at most 256 keyed records a principal, exact per-principal counts, one overflow record, each live ended call covered |
| Attribution.HistoryIsEnds | internal/proxy/input.go:471-504 | the history is the calls that ended, each with its principal, key and expiry, in order |
| Attribution.FewKeysNeverFold | internal/proxy/input.go:471-504 | while no principal has ended calls of more than 256 sessions, none is folded into an overflow record |
| Attribution.OverflowCounts | internal/proxy/input.go:471-504 | an overflow record counts the calls folded into it since it was made, each once, and those folded for its principal before have expired |
| Attribution.RecordKeeps | internal/proxy/input.go:471-504 | recording an ended call, folding past the quota, keeps the summary of the history with it |
| Attribution.PruneKeeps | internal/proxy/input.go:516-534 | pruning drops nothing that has not expired |
| Attribution.KeysNameCallers | internal/proxy/input.go:107-128 | two session keys are equal exactly for the same agent session, local run or unnamed request |
| Attribution.CallsShareKeys | internal/proxy/input.go:107-128 | two stateful sessions share a key exactly when their ids are equal, two local ones exactly when their run numbers are, and no other two calls do |
| Attribution.UnnamedStandsAgainstAll | internal/proxy/input.go:565-594 | an ended call that no session can be named for stands against the prompts of every other call until it expires |
| Attribution.Upstream.End | internal/proxy/input.go:471-504 | the call leaves the calls in flight and enters the history and the table in one step |
| Attribution.Upstream.PruneOrphans | internal/proxy/input.go:516-534 | removes exactly the expired records and returns each of them once |
| Attribution.Upstream.Attribute | internal/proxy/input.go:565-594 | the sole call in flight, unless an unexpired ended call of another session stands against it |
| Attribution.Upstream.StartPrompt | internal/proxy/input.go:652-664 | one prompt at a time and at most ten a call |
| Scrub.Scrubber.Write | internal/proxy/scrub.go:257-298 | the nested loops with the pending field are the whole-input scan |
| Scrub.ChunkInvariance | internal/proxy/scrub.go:257-298 | any split into writes ended by a final one gives the output of one final write of everything |
| Scrub.HeldBack | internal/proxy/scrub.go:257-298 | what is held back is a suffix that some form begins with and goes on after, and nothing after a final write |
| Scrub.Coverage | internal/proxy/scrub.go:257-298 | where a form occurs in full, that byte is inside a replaced span and never copied out, whatever overlaps it |
| Scrub.CutShortIsCovered | internal/proxy/scrub.go:275-280 | where the stream ends in at least four bytes of a form, that tail is inside a replaced span and never copied out |
| Scrub.OutputIsTrace | internal/proxy/scrub.go:257-298 | the output is the stream cut into copied bytes and replaced spans that tile it |
| Scrub.SpansAreGenuine | internal/proxy/scrub.go:257-298 | a replaced span is a form with its marker, or a form of which the stream ends in at least four bytes |
| Scrub.LongestWins | internal/proxy/scrub.go:122-124 | with the forms longest first, the longest that occurs is the one replaced |
| Scrub.SecretsAreCovered | internal/proxy/scrub.go:95-136 | every occurrence of a configured secret of at least four bytes in any of its forms is replaced |
| Scrub.SecretsCutShortAreCovered | internal/proxy/scrub.go:275-280 | so is what is left of one when the stream ends inside it, from four bytes on |
| Scrub.RedactorForms | internal/proxy/scrub.go:95-136 | the forms of a redactor are those of the secrets long enough, longest first, and no others |
| Sanitize.LineWriter.Write | internal/proxy/sanitize.go:131-143 | scrubs what it is given and feeds the lines |
| Sanitize.LineWriter.Feed | internal/proxy/sanitize.go:146-169 | the fast feed of whole chunks is the byte-by-byte one |
| Sanitize.LineWriter.Flush | internal/proxy/sanitize.go:174-188 | flushes what is held back and the unfinished line, once |
| Sanitize.LinesIgnoreChunks | internal/proxy/sanitize.go:131-198 | the lines written depend only on the bytes of the stream, not on how they were split into writes, through scrubbing, splitting and cutting |
| Sanitize.DrainIsFeed | internal/proxy/sanitize.go:146-169 | draining a whole chunk equals feeding its bytes one at a time |
| Sanitize.NothingLost | internal/proxy/sanitize.go:146-198 | the pieces written are the scrubbed stream without its newlines |
| Sanitize.LinesAreThePieces | internal/proxy/sanitize.go:190-198 | a line written is its piece, or its piece without one final carriage return |
| Sanitize.OneLine | internal/proxy/sanitize.go:146-198 | the pieces of a line depend on that line alone |
| Sanitize.ChopIsFull | internal/proxy/sanitize.go:146-169 | a line under 4096 bytes is one piece; a longer one is cut into pieces that make it up, each but the last within four bytes of the limit |
| Sanitize.PiecesAreBounded | internal/proxy/sanitize.go:146-188 | no piece is longer than 4096 bytes |
| Sanitize.CutAligned | internal/proxy/sanitize.go:203-213 | in well-formed UTF-8 the cut falls between characters, and always makes progress |
| Sanitize.CutIsLargest | internal/proxy/sanitize.go:203-213 | no longer part of well-formed text could be emitted without splitting a character |
| Sanitize.PiecesAreWhole | internal/proxy/sanitize.go:203-213 | every piece of well-formed text is well-formed |
| Progress.ProgressRelay.Accept | internal/proxy/progress.go:145-173 | takes only increasing progress before finish, and queues it or holds it back |
| Progress.ProgressRelay.SenderTurn | internal/proxy/progress.go:199-247 | one turn of the sender: a free token sends the held note, what is taken, when it stops, how long it waits |
| Progress.ProgressRelay.Finish | internal/proxy/progress.go:273-297 | the held note is queued, unless the request is dead |
| Progress.ProgressRelay.UntilToken | internal/proxy/progress.go:318-321 | after the wait a token can be taken; under a clock that has not run back none can be taken before, unless the wait is the millisecond, and it is at most a fifth of a second |
| Progress.ProgressIncreases | internal/proxy/progress.go:145-247 | in every interleaving what is taken for writing strictly increases, and the queue is bounded and sorted between it and the held note |
| Progress.FinalIsNotLost | internal/proxy/progress.go:273-297 | the last note taken is the last one accepted, unless finish gave up or the request was dead |
| Progress.AcceptsWhatIncreases | internal/proxy/progress.go:145-173 | in every run a note is accepted exactly when the relay is not finished, the request is live and its progress is above that of every accepted one |
| Progress.FreedTokenSends | internal/proxy/progress.go:199-224 | a sender's turn that finds a note held back and a token free takes the note for writing or leaves it last in the queue |
| Progress.TurnsDrain | internal/proxy/progress.go:199-247 | a turn writes what is queued, oldest first, and leaves a finished relay only when nothing is |
| Progress.FirstTenPass | internal/proxy/progress.go:302-313 | the first ten takes of a call succeed whenever they are tried, whatever the clock does |
| Progress.RateLimit | internal/proxy/progress.go:302-313 | between any two points the takes number at most 10 and 5 times the advance of the refill clock, and the notes written over a call at most one more than its takes |
| Canonical.ParseInvertsPrint | internal/audit/event.go:89-157 | a parser recovers the tree from its canonical text, whatever follows it |
| Canonical.PrintIsInjective | internal/audit/event.go:89-157 | two decoded trees that print alike are the same |
| Canonical.StringRoundTrip | internal/audit/event.go:147-157 | a quoted string is read back as it was (section 7 of RFC 8259) |
| Canonical.ArrivalOrderIsIrrelevant | internal/audit/event.go:109-114 | the order in which a map yields its keys does not matter |
| Canonical.BeforeIsLexicographic | internal/audit/event.go:109-114 | the order of keys is the lexicographic one |
| Canonical.PlainStandsForItself | internal/audit/event.go:147-157 | exactly the quote, the backslash, the two line separators and the control characters are escaped, so nothing is for HTML |
| Canonical.PrintIsOneLine | internal/audit/event.go:89-157 | canonical text holds no line break, so a record is one line |
| Canonical.Buffer.WriteCanonical | internal/audit/event.go:107-146 | the writer that appends to a shared buffer appends the canonical text |
| Chain.HashEvent | internal/audit/hash.go:17-29 | hashes the canonical record with its hash cleared and the previous hash appended |
| Chain.TreeDecides | internal/audit/event.go:25-68 | the encoded record, omitted fields included, determines every field |
| Chain.CallerNames | internal/audit/event.go:25-68 | under which name the record holds each field of the call and the links of the chain |
| Chain.OutcomeNames | internal/audit/event.go:25-68 | under which name it holds the decision and its outcome; only a reason, an approval and a hash are left out, exactly when there is none |
| Chain.HashInputDecides | internal/audit/hash.go:17-29 | the hashed bytes determine the record, up to a missing type, and the previous hash |
| AuditLog.VerifyReader | internal/audit/verify.go:49-148 | accepts exactly the logs that are a chain with lines that fit, and otherwise reports the chain before the first line that fails and the sequence number at fault, the one the line gives or the next one |
| AuditLog.VerifyCheckpoint | internal/audit/hash.go:47-63 | a checkpoint is good exactly when it has a signature that verifies over its position and hash |
| AuditLog.MessageDecides | internal/audit/hash.go:32-34 | a signed message names one position and one hash |
| AuditLog.ChainUnique | internal/audit/verify.go:49-148 | two logs that verify and end at the same sequence number and hash hold the same records, up to a missing type |
| AuditLog.CheckpointPins | internal/audit/verify.go:96-116 | a checkpoint found in two verifying logs pins every record before it |
| AuditLog.RecordPins | internal/audit/verify.go:49-148 | so does a record found in two verifying logs: a change, removal or insertion before it shows |
| AuditLog.RefusedLines | internal/audit/verify.go:49-148 | a checkpoint whose signature is missing or does not verify, or a line of an unknown type, makes a log that does not verify |
| AuditLog.Writer.Append | internal/audit/writer.go:115-169 | an append that gets as far writes the caller's event, field by field, and a checkpoint exactly when one is due; what it adds to the file for each way it can fail; the writer stays at the end of its chain |
| AuditLog.NewWriter | internal/audit/writer.go:95-110 | a log is taken up exactly when it verifies, at its last record |
| AuditLog.RunsChain | internal/audit/writer.go:95-169 | any appends, closes and reopens, failed writes that left no bytes included, give a chain with every checkpoint accepted under the matching key |
| AuditLog.LogRecordsAppends | internal/audit/writer.go:115-169 | in every run of appends, closes and reopens the events of the log are those of the callers whose appends wrote one, each once, in order and with the caller's fields |
| AuditLog.RunsVerify | internal/audit/writer.go:95-169 | such a log verifies, with or without the key, exactly when every line fits the verifier's buffer, which is when every append made lines that fit |
| AuditLog.LongEventBreaksLog | internal/audit/verify.go:51-52 | one event with a reason as long as the buffer, appended without error, makes a log that does not verify |
| Targets.Extract | internal/gate/args.go:109-166 | the names are those sent, each once and in order; refused exactly when an argument is no name or list of names or a name is not valid |
| Targets.NamesAreSent | internal/gate/args.go:109-166 | the names taken out are exactly those some argument sends as a name or in a list |
| Targets.SplitJoin | internal/gate/args.go:138-142 | splitting names joined by commas gives the names back |
| Targets.ListOrText | internal/gate/args.go:131-153 | a list of names and the same names written with commas send the same |
| Targets.CapBoundsTargets | internal/gate/args.go:347-407 | the count taken before classification bounds the number of names taken out after it |
| Targets.CapIsExact | internal/gate/args.go:347-407 | a call that selects no group is over the cap exactly when it sends more than 256 names, repeats included |
| DeviceCap.Evaluate | internal/policy/evaluate.go:16-83 | unknown targets, the device cap, the first rule that matches, the pending cap and no rule, in that order |
| DeviceCap.Decide | internal/gate/gate.go:129-253 | the gate's decision from the call, the key's count and its remembered names |
| DeviceCap.ForwardedMeans | internal/gate/gate.go:347-378 | a call is forwarded exactly when its targets are admitted, within the cap, and the first rule that matches allows with obligations that can be carried |
| DeviceCap.NamedExactly | internal/gate/gate.go:129-200 | a call of a listed tool gets to the policy exactly when it is well-formed, within the cap, sends only valid names, and, unless exempt, selects no group and names a device if it can |
| DeviceCap.VerdictSays | internal/gate/gate.go:129-253 | refused arguments are denied as such; a call is held exactly when the first rule that matches holds it with room under the pending cap; an unknown effect denies |
| DeviceCap.ForwardedTargets | internal/gate/gate.go:176-200 | the targets of a forwarded call are the names its arguments send, each once, valid, and known unless the policy admits unknown ones; unless exempt it selects no group |
| DeviceCap.ForwardedByRule | internal/policy/evaluate.go:54-77 | a forwarded call meets every condition of a rule that allows it, the role and tag of each device included, and no rule before it applies |
| DeviceCap.MatchesMeans | internal/policy/evaluate.go:97-141 | a rule matches exactly when class, server, tool, roles and tags of every device, and count fit |
| DeviceCap.DevicesTouched | internal/gate/gate.go:243-253 | takes the call's remembered targets off the count |
| DeviceCap.TotalCountsOnce | internal/gate/gate.go:239-253 | the total checked against the cap counts each device of the call and the key once |
| DeviceCap.SessionCounter.DecideLocked | internal/proxy/gate.go:158-186 | only a forwarded call touches its targets |
| DeviceCap.SessionCounter.TouchNames | internal/proxy/gate.go:449-477 | each distinct target is counted once, remembered up to 4096 |
| DeviceCap.CapOverRuns | internal/proxy/gate.go:438-460 | in every run the count never exceeds the cap and is at least the distinct devices forwarded; it is that number as long as at most one device was counted past 4096 names, and the names remembered are all of them exactly while none was |
| DeviceCap.CapRefusesExactly | internal/policy/evaluate.go:40-51 | after any run the cap refuses exactly when the distinct devices, with the call's, and what the count is ahead by exceed it: the devices counted twice and those of the call that were forwarded but not remembered; with none of these exactly when the distinct devices exceed it, and it never lets those pass |
| CapExactness.CountIsExact | internal/proxy/gate.go:438-460 | the count is the distinct devices forwarded, for every policy with this cap, run and key, if and only if the cap is at most 4097 |
| CapExactness.RefusalIsExact | internal/gate/gate.go:239-253 | the cap refuses a call exactly when the distinct devices would exceed it, for every policy with this cap, run and call, if and only if the cap is at most 4096 |
| CapExactness.CountGoesAhead | internal/proxy/gate.go:440-460 | for any larger cap, the run that calls 4097 devices and then the last of them again counts 4098 |
| CapExactness.RepeatIsRefused | internal/proxy/gate.go:440-460 | for any cap over 4096, a run after which a call on a device already forwarded is refused although the distinct devices are within the cap |
| DeviceCap.KeyNamesOneCaller | internal/proxy/gate.go:378-383 | calls share a counter exactly when both are on stdio or both are the same principal's over HTTP |
| Label.PassShrinks | internal/proxy/label.go:214-228 | a pass that reports a change makes the text strictly shorter in bytes, and one that does not leaves it alone |
| Label.DecodeAtShrinks | internal/proxy/label.go:232-319 | every sequence decoded is longer than the UTF-8 of the rune it stands for |
| Label.DecodePass | internal/proxy/label.go:214-228 | the index loop decodes one layer |
| Label.DecodeAll | internal/proxy/label.go:182-193 | settled exactly when the result is a fixed point, exactly when the text has at most eight layers, and then the result has none |
| Label.UnwrapIsFixed | internal/proxy/label.go:182-193 | decoding ends, in a fixed point, within as many passes as there are bytes |
| Label.StripTags | internal/proxy/label.go:153-170 | the index loop removes tags from left to right |
| Label.FirstTagGoes | internal/proxy/label.go:153-170 | the first tag goes, brackets included, exactly when fewer than 256 bytes stand between them, and what is before it stays |
| Label.HasOriginLabel | internal/proxy/label.go:127-130 | a label exactly when there are more than eight layers or the decoded text shows "[from" |
| Label.LabelSurvivesEncoding | internal/proxy/label.go:127-130 | a layer of encoding never turns a label into something else |
| Label.PercentInverts | internal/proxy/label.go:252-253 | a pass undoes percent-encoding (section 2.1 of RFC 3986) exactly for ASCII text |
| Label.PercentKeepsLabel | internal/proxy/label.go:252-253 | percent-encoding ASCII text keeps a label a label |
| Label.LayersFailClosed | internal/proxy/label.go:172-174 | a percent sign escaped nine times over counts as a label, escaped eight times it is decoded in full |
| Encodings.CodeReads | internal/proxy/label.go:232-319 | each of the seven ways of writing a rune is read as that rune, in full, whatever follows |
| Encodings.EncodePass | internal/proxy/label.go:214-319 | a pass undoes each of them on text encoded rune by rune, whatever runes it can write |
| Encodings.EveryStyleInverts | internal/proxy/label.go:214-319 | a pass undoes each of them on text encoded byte by byte exactly when the text is ASCII |
| Encodings.NameReads | internal/proxy/label.go:300-319 | a known name, in any case, between an ampersand and a semicolon is read as what it stands for |
| Encodings.PlainIsFixed | internal/proxy/label.go:214-228 | text with no backslash, percent sign or ampersand is left alone |
| Rounds.AadDecides | internal/proxy/state.go:129-136 | the additional data names one transport and one principal |
| Rounds.OpenInvertsSeal | internal/proxy/state.go:167-219 | a sealed state opens for its binding until it expires, whatever else was issued, and for no other transport or principal |
| Rounds.OnlyIssuedOpens | internal/proxy/state.go:189-219 | what opens was issued to this transport and principal and has not expired |
| Rounds.ResumeMeans | internal/proxy/input.go:281-318 | a retry goes on only for the same caller and call, and carries only clean answers to questions asked |
| Rounds.ResumeAccepts | internal/proxy/input.go:281-318 | and does go on with such a state exactly when the answers to questions asked are clean |
| Rounds.ForwardCall | internal/proxy/proxy.go:1318-1387 | the input-round loop as a function of the upstream's replies |
| Rounds.ForwardBounds | internal/proxy/proxy.go:1318-1387 | one call makes at most 11 upstream calls, fewer by the rounds it resumes from, and puts at most ten prompts to the human over all its rounds |
| Rounds.BoundIsMet | internal/proxy/proxy.go:1346-1347 | an upstream that always asks is called exactly that often and then refused |
| Rounds.LastReplyDecides | internal/proxy/proxy.go:1318-1387 | a call ends as its last reply says: a result is passed on, an error, no result and a busy upstream are told apart, a request that may not be asked is refused, and a refusal of any other has reached a bound |
| Rounds.OthersWereAnswered | internal/proxy/proxy.go:1336-1387 | every reply before the last asked for input that may be asked for and got all of it |
| Rounds.SealedAdvances | internal/proxy/proxy.go:1360-1379 | a state is sealed only for a stateless agent that may be asked, after one upstream call, with what the upstream sent, one round further and with more prompts, neither past ten, and never too long to open |
| Rounds.SealsWhenAllowed | internal/proxy/proxy.go:1360-1379 | and is sealed whenever the counts allow and it is not too long, for half an hour |
| Rounds.ChainsEnd | internal/proxy/proxy.go:1360-1379 | along every chain of retries each state counts its place in it, prompts grow with it, and no chain has more than ten |

## Left out

- LifecycleSafety.InvKept: callLimits is the part of it that a session can see (retired, calls in flight, closed); the accounting of calls per session and principal is in `Calls`.
- Lifecycle keeps the maps keyed by session as fields of one record per session, and `early` and `earlyGets` as one map keyed by the kind of request.
- Listener.HttpHandler.ReserveSession: the calls in flight are read at one moment, because only `Lifecycle` interleaves the other locks; it also sorts the candidates by taking the least each time.
- Calls.CallLimits.Release: the closure that `admit` returns is a method on the call's number; identity of entries is a number.
- The POST caps, headers, bearer tokens, write deadlines, and log lines with their rate limits.
- Which principals an attribution names for the log.
- Sanitize.LineWriter.Write: a line is what is written before it is prefixed and `escapeControl` has escaped it.
- Scrub.SecretsAreCovered: which encodings of a secret count as its forms is a parameter.
- Progress.ProgressRelay.Accept: the token and message a notification is relabelled with.
- AuditLog.VerifyReader: blank lines, and lines that do not decode, are given as such; the reader's I/O errors other than a line too long are not modelled.
- AuditLog.LongEventBreaksLog: a line is as long as the canonical text of its fields and an arbitrary rest, for the escapes and the characters beyond ASCII in which the written line differs.
- AuditLog.Writer.Append: a record is a value, so the fields assigned to the caller's record are those of the line written; a write that fails with part of a line written; sequence numbers beyond 64 bits.
- Canonical.Buffer.WriteCanonical: the JSON decoder that yields the tree, and invalid UTF-8, which it replaces.
- Targets.Extract: which strings are valid names (hostnames and IP literals) is a parameter.
- DeviceCap.Decide: classification, the closed argument list and the parse of the arguments are one flag; `path.Match`, the inventory and re-encoding are parameters; texts, traces and approvals are not kept.
- Label.HasOriginLabel: what `fold` does to each character once tags are gone is a parameter.
- Rounds.OpenInvertsSeal: the JSON form of the sealed state; base64 is any encoding with an inverse.
- Rounds.ForwardCall: an upstream error after a refusal of its own prompt, which is worded from that refusal, is an error like any other; how a prompt is relabelled and shown to the agent; a reply says whether a request is refused as it stands and whether the agent answers.
- `Proxy.Run` and `localKey`, whose waiting on connecting sessions is one map and a channel.
- Files, access lists, process trees and sockets; command-line output; YAML and CSV; regular expressions; schema narrowing, class tables and inventory merging.
