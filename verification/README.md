# FWLLM gateway: a verified model

This project models the parts of the FWLLM gateway whose correctness rests on state, order or arithmetic, and proves
what they keep over every input and every run. The Rust gateway is the primary source; where the Python gateway is a
second implementation of the same component, it is modelled beside it and the two are related by refinement.

| modules | what they model |
|---|---|
| `Substitution`, `Weave`, `Dlp`, `Sanitize`, `StreamRestore`, `InspectorChain` | reversible masking: detection spans, token vault, restoring in an arbitrary map order, the streaming decoder, whole conversations |
| `Civil`, `DayKeys` | civil-from-days, day strings, the audit timestamp, bucket and reservation keys |
| `MeteringStore`, `Metering` | budget reservations in memory: admit, settle, record, and whole runs of them |
| `Redis`, `LuaStore` | the same protocol on Redis: the two scripts with their expiries, refined against the in-memory store |
| `FallbackStore`, `FallbackRuns` | the locked fallback for backends without scripts, command by command, with plain records falling between its commands |
| `StreamLifecycle`, `StreamedAnswer` | the end of a streamed response: items, terminal chunk, disconnect and the spawned finalisers, interleaved at every suspension point; and the decoder's output on its way into the audit row |
| `Tunnel` | one agent's tunnel: callers, bounded queue, pending map, timeouts, socket loss |
| `AttackWindow`, `PolicyEngine`, `RouterStore`, `RateLimiter` | attack failover, provider resolution, the two router state stores, the sliding-window limiter |

Objects whose methods update fields are classes, and every such method is proved equal to a step function; the
theorems are about those step functions over whole runs. Steps that race (finalisers, tunnel tasks, settles) are
events of a state machine, one event per section of code between two suspension points, so that a theorem over all
event sequences is a theorem over all interleavings. Lemmas switch automatic induction off, so every induction is written out.

## Main results

* Masking. Restoring a masked conversation with the final vault gives back every message, whatever the order in which
  the vault is iterated, provided no generated token already stood in the message; for a text without hits that
  proviso is exact, and for a masked text too when no value occurs in its own token. Sequential replacement equals one simultaneous left-to-right pass, always under `mask`, and under
  `restore` if and only if no stored value is a substring of another stored token. Under exactly the same condition
  the streaming decoder emits, for every way of cutting the answer into chunks, what the batch restore returns; it
  never holds back more than 65 characters.
* Calendar. Civil-from-days is total, its inverse is the textbook day count, and day `n + 1` is the next calendar date,
  for all integers. Day strings are injective, hence no two buckets share a key.
* Reservations. In every same-day run each counter is the sum of open reserves, actual usage and recorded usage; the
  clamp at 0 never fires and settles commute. A settle on another day keeps conservation if and only if usage equals the
  reserve, and two settles on any days commute exactly when the clamp does not tell their orders apart. In every run,
  whichever days its settles fall on, a gated counter stays within its limit plus what first settles and plain records
  raised it by, and the request counter stays within its limit; a burst admits exactly min(n, k).
* Scripts. They decide and count as the in-memory store over every run whose first settles come within 600 seconds of
  their admissions, also after midnight; an open reservation is settled by the script exactly within that time.
* Fallback. Its reads and writes are separate commands and plain records take no lock, so a record between a settle's GET
  and SET of the same key is lost. A run stays in step with a sequential run of the in-memory store if and only if that
  never happens (unless the counter ends at zero either way) and no call is cancelled half done, that is, no admission
  that has changed a counter and no settle that would still change one. The sequential run has the same records, and the
  same admissions and settles in the order of the lock; a cancelled admission counts as not begun, a cancelled settle as
  done.
* Streams. Under every interleaving: at most one charge, at most one audit row, exactly one once a finaliser has run; the
  row says "ok" if and only if the terminal chunk finished and no item failed; audited and charged tokens agree.
* Tunnel. Every call ends in at most one outcome and keeps it, an answer reaches only the call that carries its id, the
  queue stays within 16, and no call is left waiting after the socket task has ended.
* Routing. Over every run with a clock that does not run backwards, the engine's pruned and lazily cleared state answers
  each request as the complete history of attacks and usage calls for. The pruned attack lists are right for every trigger
  count if and only if no attack that has left the window is back inside it at the next attack. The two resolvers pick
  alike, and a validated routing serves from an unknown provider, exactly under stated conditions on the rules.

Two comments in the source do not describe its code, and the model follows the code. `rust/fwllm-gateway/src/inspectors/dlp.rs`
line 44 says that overlaps resolve "by profile order, then position", but line 70 sorts by position first. In
`py/fwllm/src/fwllm/router/policy.py` lines 159 to 162 announce moving a switch target to the front, but the code only
passes on to the next candidate.

## Model

| member | source | states |
|---|---|---|
| Substitution.OneMoreToken | rust/fwllm-gateway/src/inspectors/dlp.rs:159-174 | one more `replace` after a simultaneous pass is a simultaneous pass with one more token, when its value cannot complete another token |
| Substitution.SequentialIsSimultaneous | rust/fwllm-gateway/src/inspectors/dlp.rs:157-177 | replacing token after token in any order equals a single left-to-right pass, for non-interfering replacements |
| Substitution.SimultaneousSplits | rust/fwllm-gateway/src/inspectors/dlp.rs:129-146 | the single pass distributes over a cut that splits no token |
| Substitution.InterferenceShows | rust/fwllm-gateway/src/inspectors/dlp.rs:159-161 | if a value occurs inside another token, there is a text on which two iteration orders differ |
| Substitution.SequentialKeeps | rust/fwllm-gateway/src/inspectors/dlp.rs:157-177 | a text without opening or without closing brackets comes through any sequence of replacements unchanged |
| Substitution.PassLeavesNone | rust/fwllm-gateway/src/inspectors/dlp.rs:161 | one `replace` leaves no occurrence of its token behind, unless the value occurs inside the token |
| Weave.PassOverWoven | rust/fwllm-gateway/src/inspectors/dlp.rs:161 | one `replace` touches exactly the inserted copies of its token, never text that only looks like one |
| Weave.RestoreWoven | rust/fwllm-gateway/src/inspectors/dlp.rs:157-177 | replacing tokens one after another, in any order, puts each inserted token's own value in its place |
| Dlp.TokenShape | rust/fwllm-gateway/src/inspectors/dlp.rs:90 | every token is one bracketed group of 38 to 49 token characters |
| Dlp.LabelOfToken | rust/fwllm-gateway/src/inspectors/dlp.rs:167-172 | the mask label is the detector type in brackets, for multi-word types too, and is no token itself |
| Dlp.TokenAlone | rust/fwllm-gateway/src/inspectors/dlp.rs:160-174 | a token of the answer turns into its value under `restore` if it was inserted for this request, else into its label |
| Dlp.MaskIsIndependent | rust/fwllm-gateway/src/inspectors/dlp.rs:162-174 | under `mask` no replacement can interfere with another token |
| Dlp.RestoreIsIndependent | rust/fwllm-gateway/src/inspectors/dlp.rs:160-161 | under `restore` none can when no value occurs inside a different token |
| Dlp.Deanonymize | rust/fwllm-gateway/src/inspectors/dlp.rs:157-177 | the loop over an arbitrarily ordered vault computes the sequential replacement in that order |
| Dlp.OneText | rust/fwllm-gateway/src/inspectors/dlp.rs:157-177 | the restored text is that of one simultaneous pass: always under `mask`, under `restore` when values stay apart from tokens |
| Dlp.OrderIndependentIff | rust/fwllm-gateway/src/inspectors/dlp.rs:157-177 | under `restore` all iteration orders give one text, on every text, if and only if no value occurs inside a different token |
| Sanitize.SortHitsSorts | rust/fwllm-gateway/src/inspectors/dlp.rs:70 | the hits in order of (start, profile order), none lost or doubled |
| Sanitize.AcceptedSpans | rust/fwllm-gateway/src/inspectors/dlp.rs:64-79 | accepted spans are matches of their detectors, end to end, in order and disjoint; every hit starts inside one, with ties won by profile order; none are accepted only if there are no hits |
| Sanitize.RewriteOne | rust/fwllm-gateway/src/inspectors/dlp.rs:82-99 | one back-to-front replacement extends the front-to-back rebuild by one token |
| Sanitize.FreshTokenExists | rust/fwllm-gateway/src/inspectors/dlp.rs:88-94 | while the vault is smaller than the token space, an unused token exists, so redrawing can end |
| Sanitize.DlpState.TokenFor | rust/fwllm-gateway/src/inspectors/dlp.rs:85-97 | the token already standing for the value, else a fresh one added to an injective vault |
| Sanitize.DlpState.ReplaceHits | rust/fwllm-gateway/src/inspectors/dlp.rs:80-101 | the in-place rewrite equals literals woven with tokens, the vault grows by inserted tokens only, and the scope counts insertions |
| Sanitize.DlpState.Sanitize | rust/fwllm-gateway/src/inspectors/dlp.rs:36-102 | exactly detector matches are masked, one over the start of every hit; all text outside them is kept, each becomes a token that stands for it, vault and scope stay well-formed |
| Sanitize.MaskingChangesText | rust/fwllm-gateway/src/inspectors/chain.rs:98-101 | the masked text equals the original if and only if nothing was accepted |
| Sanitize.RestoreUndoesSanitize | rust/fwllm-gateway/src/inspectors/dlp.rs:36-177 | restoring a masked text with the final vault, in any order, gives the original |
| Sanitize.MaskShowsLabels | rust/fwllm-gateway/src/inspectors/dlp.rs:162-174 | under `mask` the text comes back with each span shown as its label and nothing else changed |
| Sanitize.RestoreKeepsIff | rust/fwllm-gateway/src/inspectors/dlp.rs:157-177 | a text without hits survives restoring if and only if it contains no vault token |
| Sanitize.RestoreUndoesIff | rust/fwllm-gateway/src/inspectors/dlp.rs:36-177 | every iteration order gives a masked text back if and only if no vault token occurs in it, for values that do not occur in their own token |
| StreamRestore.CutIsClean | rust/fwllm-gateway/src/inspectors/dlp.rs:133-143 | no token ever lies across the point where the buffer is cut, whatever arrives later |
| StreamRestore.CutBuffer | rust/fwllm-gateway/src/inspectors/dlp.rs:130-144 | head and carry make up the buffer, and the carry is exactly its unfinished token, if it ends in one |
| StreamRestore.HeldBackIff | rust/fwllm-gateway/src/inspectors/dlp.rs:132-143 | what is held back is exactly a `[` followed by at most 64 letters, digits or underscores up to the end |
| StreamRestore.Session.Feed | rust/fwllm-gateway/src/inspectors/dlp.rs:129-146 | emits one pass over the head and holds back the rest; everything emitted so far begins one pass over everything fed |
| StreamRestore.Session.Flush | rust/fwllm-gateway/src/inspectors/dlp.rs:148-154 | emitted text and the flushed rest are together one pass over everything fed |
| StreamRestore.StreamEqualsPass | rust/fwllm-gateway/src/inspectors/dlp.rs:116-155 | induction over chunks: any cutting, and any iteration order in each call, emits one simultaneous pass |
| StreamRestore.StreamEqualsBatch | rust/fwllm-gateway/src/inspectors/dlp.rs:109-177 | for every vault that masking builds, the stream equals `deanonymize` of the whole answer |
| StreamRestore.StreamDiffers | rust/fwllm-gateway/src/inspectors/dlp.rs:129-154 | a value inside another token gives chunks on which stream and batch differ |
| StreamRestore.StreamEqualsBatchIff | rust/fwllm-gateway/src/inspectors/dlp.rs:109-177 | under `restore`, stream equals batch for every cutting if and only if no value occurs inside a different token |
| InspectorChain.Chain.MaskAll | rust/fwllm-gateway/src/inspectors/chain.rs:89-112 | every message text is masked against one shared vault that never forgets a token |
| InspectorChain.Chain.FindSensitive | rust/fwllm-gateway/src/inspectors/chain.rs:93-101 | block mode finds a text that sanitizing changes if and only if some detector hits some message |
| InspectorChain.Chain.ProcessRequest | rust/fwllm-gateway/src/inspectors/chain.rs:88-114 | refusal exactly in block mode with a hit; masked payload exactly in mask mode; otherwise the payload is untouched |
| InspectorChain.Chain.ProcessResponse | rust/fwllm-gateway/src/inspectors/chain.rs:128-134 | unchanged when off; else the simultaneous pass under the policy chosen by the configuration |
| InspectorChain.ConversationRoundTrip | rust/fwllm-gateway/src/inspectors/chain.rs:88-134 | every message of a conversation that shares one vault comes back exactly, in any vault order |
| Civil.YearOfEraBrackets | rust/fwllm-gateway/src/metering.rs:528-530 | the year-of-era formula finds the March-based year that holds the day, across leap and century rules |
| Civil.MonthLength | rust/fwllm-gateway/src/metering.rs:531-533 | the month formula's boundaries are the calendar's month lengths, leap February included |
| Civil.CivilRoundTrip | rust/fwllm-gateway/src/metering.rs:524-534 | every day number has a valid date, and counting its days gives the number back |
| Civil.CivilIsInverse | rust/fwllm-gateway/src/router.rs:239-255 | every valid date is the image of its day count |
| Civil.NextDateCountsOne | rust/fwllm-gateway/src/metering.rs:524-534 | the next calendar date is one day further |
| Civil.CivilFollowsCalendar | rust/fwllm-gateway/src/router.rs:239-255 | day 0 is 1 January 1970 and day n + 1 is the date after day n |
| Civil.AuditDateAgrees | rust/fwllm-gateway/src/audit.rs:221-231 | the audit log's copy, which divides toward zero throughout, gives the same date for every reading of its unsigned clock |
| DayKeys.DayStringInjective | rust/fwllm-gateway/src/metering.rs:522-536 | distinct days have distinct strings, none of which holds a ':' |
| DayKeys.DayStringReads | rust/fwllm-gateway/src/metering.rs:522-536 | from year 0 on the digits read as year, month and day of the calendar date |
| DayKeys.IsoNowMatchesDayString | rust/fwllm-gateway/src/audit.rs:216-239 | the audit timestamp, from its own date arithmetic, has the day string's digits and a clock that counts back to the seconds of the day |
| DayKeys.BucketKeysDistinct | rust/fwllm-gateway/src/metering.rs:424-438 | bucket keys are equal only for equal kind, name and day, whatever the names contain |
| DayKeys.ReservationKeysDistinct | rust/fwllm-gateway/src/metering.rs:475 | a reservation key is no bucket key and is injective in the id |
| MeteringStore.InMemoryStore.Incr | rust/fwllm-gateway/src/metering.rs:98-103 | one counter moves by the amount, all others stay |
| MeteringStore.InMemoryStore.Reserve | rust/fwllm-gateway/src/metering.rs:110-135 | refuses without touching anything, or applies all five increments |
| MeteringStore.InMemoryStore.Settle | rust/fwllm-gateway/src/metering.rs:136-148 | applies the clamped adjustment once per reservation key, later calls change nothing |
| Metering.SettleExact | rust/fwllm-gateway/src/metering.rs:503-512 | under conservation a same-day settle never meets the clamp and moves its counters by usage minus reserve |
| Metering.SettleConservesIff | rust/fwllm-gateway/src/metering.rs:431-438 | a first settle keeps conservation if and only if it runs on the admission's day or usage equals the reserve |
| Metering.RunConserves | rust/fwllm-gateway/src/metering.rs:414-512 | conservation over every same-day run, whatever the interleaving and repeats of settles |
| Metering.CountersByName | rust/fwllm-gateway/src/metering.rs:414-512 | each client, provider and model counter is open reserves plus settled usage plus recorded usage of that name and day |
| Metering.RunWithinQuota | rust/fwllm-gateway/src/metering.rs:443-512 | in every run, with settles on any day, a gated counter never exceeds its limit by more than what first settles raised that very counter beyond their reserves, plus plain records |
| Metering.OverrunIsRaised | rust/fwllm-gateway/src/metering.rs:503-512 | in same-day runs that is the overrun of the settled reservations in the ledger, plus the records |
| Metering.RequestsHaveNoOverrun | rust/fwllm-gateway/src/metering.rs:130 | reservations, open or settled, never overrun the request counter |
| Metering.RequestsWithinLimit | rust/fwllm-gateway/src/metering.rs:116-130 | in every run of admissions and settles, with settles on any day, the request counter stays within its limit |
| Metering.StepAccounts | rust/fwllm-gateway/src/metering.rs:136-148 | whichever day a settle runs on, settled marks stay in step with the ledger and no counter falls below zero |
| Metering.BurstAdmitsExactly | rust/fwllm-gateway/src/metering.rs:110-135 | n admissions against k free request slots admit exactly min(n, k) |
| Metering.SettlesCommute | rust/fwllm-gateway/src/metering.rs:136-148 | under conservation, two same-day settles give one state in either order |
| Metering.SettlesCommuteIff | rust/fwllm-gateway/src/metering.rs:136-148 | two settles on any days give one state in either order if and only if one is a repeat or, on every counter that both move, the moves are equal, or neither raises it, or the smaller does not take it below zero |
| Metering.SettleElsewhere | rust/fwllm-gateway/src/metering.rs:503-512 | a settle, on any day, leaves every other reservation as it was |
| Metering.Meter.AdmitRequest | rust/fwllm-gateway/src/metering.rs:443-499 | admits exactly when client tokens, requests and provider tokens, raised by max(0, prompt estimate) plus max(0, cap) and by one request, keep their limits; then exactly those counters of the day rise by that; otherwise nothing changes and the refusal names the first limit that would be passed |
| Metering.GateMeans | rust/fwllm-gateway/src/metering.rs:116-128 | the gates, in their order, told by limits and counters |
| Metering.Meter.SettleUsage | rust/fwllm-gateway/src/metering.rs:503-512 | the first time, the three token counters of the day move by prompt plus completion minus prompt estimate minus cap, not below zero; repeats change nothing |
| Metering.Meter.RecordUsage | rust/fwllm-gateway/src/metering.rs:414-429 | the three token counters of the day rise by prompt plus completion, the two request counters by one, nothing else changes |
| Redis.CountAndRenew | rust/fwllm-gateway/src/metering.rs:272-277 | incrementing and renewing several distinct counters moves each once and gives each the new expiry |
| LuaStore.RedisStore.Reserve | rust/fwllm-gateway/src/metering.rs:258-280 | the admission script: checks in its own order, five increments, expiries and the open reservation entry |
| LuaStore.RedisStore.Settle | rust/fwllm-gateway/src/metering.rs:282-292 | the settle script: only for a live open entry, clamped, with fresh expiries and the entry's own expiry kept |
| LuaStore.GatesAgree | rust/fwllm-gateway/src/metering.rs:110-128 | script and in-memory store refuse alike; the named budget differs only when tokens and requests are both out |
| LuaStore.OpenIffUnsettled | rust/fwllm-gateway/src/metering.rs:283-284 | the reservation entry is live and open exactly when the in-memory store has not settled the id |
| LuaStore.StepRefines | rust/fwllm-gateway/src/metering.rs:258-292 | every admit, increment and settle within 600 seconds, on either side of midnight, keeps the two stores in step |
| LuaStore.RunRefines | rust/fwllm-gateway/src/metering.rs:258-321 | the refinement over every such run |
| LuaStore.StoresAgree | rust/fwllm-gateway/src/metering.rs:258-321 | after every such run: equal counters of the day, equal next admission, equal next settle |
| LuaStore.SettleBeforeExpiryIff | rust/fwllm-gateway/src/metering.rs:320 | an open reservation is settled by the script if and only if fewer than 600 seconds have passed |
| FallbackStore.FallbackMetering.OnRead | py/fwllm/src/fwllm/metering.py:222-250 | one GET of an admission under the lock; after the third the gates decide, and a refusal releases the lock |
| FallbackStore.FallbackMetering.OnReserve | py/fwllm/src/fwllm/metering.py:251-257 | one INCRBY or EXPIRE of an admission; after the tenth the reservation is open and the lock free |
| FallbackStore.FallbackMetering.Settle | py/fwllm/src/fwllm/metering.py:301-307 | takes the lock and marks the reservation settled, once, and only for an id admitted by this process |
| FallbackStore.FallbackMetering.OnAdjust | py/fwllm/src/fwllm/metering.py:308-312 | one GET, SET or EXPIRE of a settle; after the ninth the lock is free |
| FallbackStore.FallbackMetering.Incr | py/fwllm/src/fwllm/metering.py:71-75 | one INCRBY of a plain record, which takes no lock |
| FallbackStore.AdmitAlone | py/fwllm/src/fwllm/metering.py:220-257 | an admission whose commands run without interruption decides on one state and makes all five counts |
| FallbackStore.SettleAlone | py/fwllm/src/fwllm/metering.py:301-312 | a settle whose commands run without interruption applies once, key by key |
| FallbackStore.AdjustEachIsScript | py/fwllm/src/fwllm/metering.py:308-311 | GET, SET, EXPIRE key by key, uninterrupted, has the settle script's effect |
| FallbackStore.CountEachIsScript | py/fwllm/src/fwllm/metering.py:251-255 | INCRBY, EXPIRE key by key, uninterrupted, has the admission script's effect |
| FallbackStore.GateAgreesIff | py/fwllm/src/fwllm/metering.py:227-234 | fallback and script decide every admission alike, budget included, exactly on limits without a visible negative one |
| FallbackRuns.DecidesAlike | py/fwllm/src/fwllm/metering.py:224-234 | three separate reads accept only what the counters before the records in between allow, and refuse only what those after them refuse |
| FallbackRuns.StoreFollowsIff | py/fwllm/src/fwllm/metering.py:309-310 | a settle's SET writes the right value if and only if nothing was counted on the key since its GET, or the counter ends at zero either way |
| FallbackRuns.CancelEarlyIff | py/fwllm/src/fwllm/metering.py:222-251 | an admission cancelled before it counts its request leaves the store in step, as not begun, if and only if it has changed no counter |
| FallbackRuns.EndFollowsIff | py/fwllm/src/fwllm/metering.py:308-311 | a settle that is cut off leaves the store in step, as done, if and only if no key that it has not stored would change |
| FallbackRuns.CancelledNotOpen | py/fwllm/src/fwllm/metering.py:256-306 | after a cancellation, no sequential run in which the call's reservation is open is in step |
| FallbackRuns.LateAdmissionCounts | py/fwllm/src/fwllm/metering.py:251-257 | after cancelling an admission that has counted its request, the run that leaves it out is not in step either |
| FallbackRuns.MoveKeepsIff | py/fwllm/src/fwllm/metering.py:220-312 | every command, record and cancellation keeps the fallback in step exactly when it loses no record and leaves no call half done |
| FallbackRuns.RunFollowsIff | py/fwllm/src/fwllm/metering.py:220-334 | the same for whole runs: in step after every move if and only if every move keeps to that |
| FallbackRuns.RunLogs | py/fwllm/src/fwllm/metering.py:220-334 | the sequential run consists of exactly the records, admissions and settles of the real one, the latter two in the order of the lock; an admission counts from when its request is counted |
| FallbackRuns.FallbackAgrees | py/fwllm/src/fwllm/metering.py:220-334 | a run that loses nothing amounts to a legal sequential run of the in-memory store; with the lock free, counters, the next admission and the next settle agree with it, however late the settle |
| StreamLifecycle.StepInv | rust/fwllm-gateway/src/lib.rs:414-511 | every step of items, terminal chunk, disconnect and spawned tasks keeps the invariant |
| StreamLifecycle.StreamSafety | rust/fwllm-gateway/src/lib.rs:414-720 | under every interleaving: at most one charge and one row, one row once a finaliser ran, "ok" iff the terminal chunk finished without item errors, audited tokens equal charged tokens |
| StreamLifecycle.ReportsTellEvents | rust/fwllm-gateway/src/lib.rs:414-511 | under every interleaving charge and row hold the numbers of the last chunk that carried usage, as upstream, else a quarter of the characters of request and restored text, as estimated; the row holds all restored text and the code that item errors and the terminal chunk call for |
| StreamLifecycle.StreamCompletes | rust/fwllm-gateway/src/lib.rs:466-511 | at rest there is exactly one row and one charge; the charge is lost only if the disconnect cut the terminal chunk off inside it |
| StreamLifecycle.DropCompletes | rust/fwllm-gateway/src/lib.rs:466-511 | a body that was dropped in a runtime, or finished, leaves exactly one row and one charge once its tasks have run |
| StreamLifecycle.TasksCanFinish | rust/fwllm-gateway/src/lib.rs:487-509 | from every reachable state the spawned tasks can run to their end |
| StreamedAnswer.RowHoldsAnswer | rust/fwllm-gateway/src/lib.rs:576-720 | under every interleaving an "ok" row holds one restoring pass over all deltas of the answer, and so does any row of a stream whose items had ended; an earlier row holds its beginning |
| StreamLifecycle.ResponseStream.Finish | rust/fwllm-gateway/src/lib.rs:54-78 | writes the row unless one was written |
| StreamLifecycle.ResponseStream.SettleOnce | rust/fwllm-gateway/src/lib.rs:444-463 | starts the metering call unless one was started |
| StreamLifecycle.ResponseStream.OnItem | rust/fwllm-gateway/src/lib.rs:576-631 | an error item marks the stream; a chunk updates usage and restored text |
| StreamLifecycle.ResponseStream.OnTerminalStart | rust/fwllm-gateway/src/lib.rs:679-684 | the terminal chunk charges the last usage that arrived, or else the estimate, up to its first suspension point |
| StreamLifecycle.ResponseStream.OnTerminalFinish | rust/fwllm-gateway/src/lib.rs:685-719 | the terminal chunk's code and audit row |
| StreamLifecycle.ResponseStream.OnDrop | rust/fwllm-gateway/src/lib.rs:466-510 | dropping the body captures the numbers and spawns one task for each live accountant |
| StreamLifecycle.ResponseStream.OnTaskStart | rust/fwllm-gateway/src/lib.rs:487-504 | a spawned task takes the charge unless it was taken |
| Tunnel.StepInv | rust/fwllm-gateway/src/lib.rs:263-340 | every step keeps: a waiting call's request is in exactly one place, and the queue is within its capacity |
| Tunnel.StepOutcome | rust/fwllm-gateway/src/ingress.rs:154-190 | a step resolves a call only for the reason its outcome names, and never changes a resolved call |
| Tunnel.AnswerReachesItsCaller | rust/fwllm-gateway/src/lib.rs:292-306 | an answer resolves at most one call, and only the one that carries its id |
| Tunnel.AnswerIsDelivered | rust/fwllm-gateway/src/lib.rs:292-306 | a call whose request the loop has taken and that still waits is answered by the first reply to its id; nobody else changes |
| Tunnel.ReplyAnswers | rust/fwllm-gateway/src/lib.rs:263-340 | over every run, a taken request whose reply comes before its time-out and the end of the socket task ends answered |
| Tunnel.ServedInOrder | rust/fwllm-gateway/src/lib.rs:314-329 | requests leave the queue in the order in which they were queued |
| Tunnel.CallFindsTunnel | rust/fwllm-gateway/src/ingress.rs:162-185 | a call finds a tunnel exactly between registration and removal of a socket, and is queued exactly when that socket is still the agent's, its task has not ended and fewer than 16 wait |
| Tunnel.OutcomesAreFinal | rust/fwllm-gateway/src/ingress.rs:186-189 | a resolved call stays as it is over every continuation |
| Tunnel.TunnelSafety | rust/fwllm-gateway/src/lib.rs:263-340 | over every run: queue within 16, answered calls were answered by the agent, nobody waits once the socket task has ended |
| Tunnel.NoCallHangs | rust/fwllm-gateway/src/ingress.rs:180-189 | an unresolved caller is at most two of its own steps from an outcome, and ending the socket releases all |
| Tunnel.AgentTunnel.TrySendRequest | rust/fwllm-gateway/src/ingress.rs:180-185 | queued, "overloaded" on a full queue, "disconnected" on a dead one |
| Tunnel.AgentTunnel.OnReply | rust/fwllm-gateway/src/lib.rs:292-306 | the waiting caller of the id, its request taken, is answered; the pending entry is removed |
| Tunnel.AgentTunnel.Shutdown | rust/fwllm-gateway/src/lib.rs:333-340 | unregisters the agent and drops every queued and pending responder |
| AttackWindow.SinceTwice | rust/fwllm-gateway/src/router.rs:121 | pruning early and again later keeps what pruning once keeps, if what goes early would go later |
| AttackWindow.SinceKeeps | rust/fwllm-gateway/src/router.rs:121 | pruning keeps exactly the times not older than the window start, as often and in the order in which they came |
| AttackWindow.QualifiesIff | rust/fwllm-gateway/src/router.rs:115-117 | an attack counts when failover is on and its severity is at least the configured one, unknown names being the lowest |
| AttackWindow.EngineStores | rust/fwllm-gateway/src/router.rs:113-135 | a client's list and block are told by that client's own qualifying attacks alone, whatever the clock does |
| AttackWindow.AlarmsMatchHistory | rust/fwllm-gateway/src/router.rs:113-135 | for steady attack times the stored list is the client's qualifying attacks since its last trigger within the window, and the block is that of its last trigger |
| AttackWindow.OverrideMatchesHistory | rust/fwllm-gateway/src/router.rs:131-134 | the override is that of the latest trigger of any client |
| AttackWindow.BlockedIff | rust/fwllm-gateway/src/router.rs:170-177 | a client is blocked if and only if its latest trigger is less than the block time ago |
| AttackWindow.ClientsAreIsolated | py/fwllm/src/fwllm/router/policy.py:99-103 | other clients' attacks never change a client's list or block, whatever the clock does |
| AttackWindow.ListsMatchIff | rust/fwllm-gateway/src/router.rs:118-122 | the stored lists are right after every attack and for every trigger count if and only if no attack that one attack pushes out of the window is inside the window of the next; a clock that does not run backwards is enough |
| PolicyEngine.PickIsFirstMatch | rust/fwllm-gateway/src/router.rs:202-231 | a provider is picked exactly when some candidate decides for it and all earlier ones pass; none exactly when all pass |
| PolicyEngine.OverrideFormsAgree | rust/fwllm-gateway/src/router.rs:191-194 | inserting the override and dropping adjacent repeats picks as filtering it out of the chain does |
| PolicyEngine.FilteredPickIs | py/fwllm/src/fwllm/router/policy.py:151-166 | a provider that Python does not switch to is picked exactly when it is reached without a violation, all before it being passed |
| PolicyEngine.ResolversAgreeIff | py/fwllm/src/fwllm/router/policy.py:151-166 | both implementations pick alike if and only if the first candidate that does not pass switches to no target that Python ignores, or Python reaches that very target clean among the later candidates |
| PolicyEngine.ResolversAgree | py/fwllm/src/fwllm/router/policy.py:157-163 | in particular when no rule switches to a candidate |
| PolicyEngine.ResolversPart | py/fwllm/src/fwllm/router/policy.py:157-162 | an instance of the other case: one serves and the other fails |
| PolicyEngine.ValidateRouting | rust/fwllm-gateway/src/router.rs:78-97 | accepts exactly the routings with known chain and failover target, else names the first unknown provider |
| PolicyEngine.TokensAddUp | rust/fwllm-gateway/src/router.rs:99-111 | a provider's daily count is the sum of what was spent on that day |
| PolicyEngine.AlarmsFollowHistory | rust/fwllm-gateway/src/router.rs:170-199 | blocking and the active override are what the history says although expired overrides are cleared lazily |
| PolicyEngine.AnswersFollowHistory | rust/fwllm-gateway/src/router.rs:164-236 | after any run the engine answers a request as the full history does |
| PolicyEngine.AnswerIsFirstMatch | rust/fwllm-gateway/src/router.rs:164-236 | a blocked client is refused; else the first candidate that decides serves, an active override being asked before the chain or its default, under the mapped model name; it fails iff all pass |
| PolicyEngine.OverrideComesFirst | rust/fwllm-gateway/src/router.rs:189-194 | while an override is active, whom it decides for serves; if it passes, the chain alone answers |
| PolicyEngine.ViolatesIff | rust/fwllm-gateway/src/router.rs:144-161 | a rule is not violated iff it names another provider or one of its bounds on the day's tokens does not hold |
| PolicyEngine.ServesUnknownIff | rust/fwllm-gateway/src/router.rs:78-97 | after any run a validated routing serves from an unknown provider if and only if the first candidate that does not pass violates first a rule with an unknown target, or is the unknown "default" of an empty chain |
| PolicyEngine.ServesKnownProviders | rust/fwllm-gateway/src/router.rs:78-97 | with known rule targets, and a chain or a known "default", only known providers serve |
| PolicyEngine.UncheckedRuleTarget | rust/fwllm-gateway/src/router.rs:78-97 | an instance: an unconditional first rule with an unknown target decides every request that is not blocked |
| PolicyEngine.PolicyEngine.OnAttackDetected | rust/fwllm-gateway/src/router.rs:113-135 | one attack's effect on window, block and override |
| PolicyEngine.PolicyEngine.RecordTokensToday | rust/fwllm-gateway/src/router.rs:99-111 | adds to the provider's count of the current day |
| PolicyEngine.PolicyEngine.Violations | rust/fwllm-gateway/src/router.rs:205-210 | the violated rules in order |
| PolicyEngine.PolicyEngine.ResolveRequest | rust/fwllm-gateway/src/router.rs:164-236 | refused, served by the first match or failed, as configuration, override, blocks and token counts call for; clears an override whose cooldown is over and changes nothing else |
| RouterStore.KeyStringsDistinct | py/fwllm/src/fwllm/router/store.py:58-94 | no two of the store's keys share a string, whatever colons the names contain |
| RouterStore.InMemoryRouterStore.AddTokens | py/fwllm/src/fwllm/router/store.py:44-46 | one counter moves, and its new value is returned |
| RouterStore.RedisRouterStore.Blocked | py/fwllm/src/fwllm/router/store.py:81-89 | answers whether the block still runs, and deletes it if it does not |
| RouterStore.RedisRouterStore.AddTokens | py/fwllm/src/fwllm/router/store.py:91-94 | counts and renews the 48-hour expiry |
| RouterStore.StepMirrors | py/fwllm/src/fwllm/router/store.py:52-98 | every call keeps the two stores in correspondence |
| RouterStore.StoresAnswerAlike | py/fwllm/src/fwllm/router/store.py:23-98 | every call of every run is answered alike by both stores |
| RouterStore.AnswersTellCalls | py/fwllm/src/fwllm/router/store.py:23-49 | each answer told from the calls before it: last override set and not cleared, whether the client's last block has still to end, sum counted for provider and day |
| RouterStore.OverrideReadIff | py/fwllm/src/fwllm/router/store.py:62-71 | an override is read back as written if and only if its provider has a name |
| RouterStore.BlockReadIff | py/fwllm/src/fwllm/router/store.py:81-89 | a second query agrees if and only if the clock has not gone back across the block's end |
| RouterStore.CounterReadIff | py/fwllm/src/fwllm/router/store.py:91-98 | a counter reads alike if and only if fewer than two days have passed or it is zero |
| RateLimiter.Limiter.Allow | py/fwllm/src/fwllm/inspectors/injection.py:139-147 | prunes, decides and stores the key's list |
| RateLimiter.BucketIsEnough | py/fwllm/src/fwllm/inspectors/injection.py:141-146 | the pruned list decides as the list of all granted calls would |
| RateLimiter.AllowedIff | py/fwllm/src/fwllm/inspectors/injection.py:139-147 | a call is allowed if and only if fewer than the maximum of granted calls lie in the window that ends with it |
| RateLimiter.NeverOverMaximum | py/fwllm/src/fwllm/inspectors/injection.py:130-147 | every window of every run holds at most the maximum of granted calls |

## Left out

- Detectors: the eleven patterns are any function from a text to non-empty in-bounds spans without brackets (not even ordered or disjoint per pattern); regular expressions themselves, the machine-learning classifier and the LightAnon library are not modelled.
- Randomness: a drawn token is any unused token of the right shape and a request or reservation id is any string not in use; masking assumes fewer than 16^32 characters of input, so that drawing again can end.
- Characters: texts are sequences of characters, not UTF-8 bytes; held-back text is ASCII, so its length is the same in both.
- `StreamRestore`: one session per answer; the sharing of one session by several choices of a streamed response is not modelled.
- Python's own `StreamRestore`, which rests on a library function that is not part of this model.
- Integers are unbounded and times are reals: 64-bit overflow, Lua doubles and floating-point rounding are not modelled.
- Backend failures: pings, fail-open and fail-closed handling, `check_client` and `check_provider`.
- Metering.RunConserves: admissions draw ids not used before and only admitted ids are settled, because `InMemoryStore.settle` itself does not ask whether an id was admitted; settles on a later day are covered by `Metering.SettleConservesIff` and `Metering.StepAccounts`.
- MeteringStore.InMemoryStore.Settle: one step, whereas the source releases the lock on the settled set before it takes the one on the counters; another call may see the mark before the counters have moved.
- LuaStore.RunRefines: plain increments are the Rust `INCRBY` without expiry; a first settle comes within 600 seconds of its admission.
- FallbackRuns.FallbackAgrees: one process, one lock, commands on a bucket within the two days before it can expire; publishing of quota and usage events is not modelled. Limits are those on which script and fallback decide alike (`FallbackStore.GateAgreesIff`).
- FallbackRuns.RunFollowsIff: a cancelled admission counts as not begun and a cancelled settle as done; for an admission that has counted its request neither reading is in step (`FallbackRuns.CancelledNotOpen`, `FallbackRuns.LateAdmissionCounts`).
- StreamLifecycle.StreamSafety: a stream that was opened; the open-failure path audits 0 tokens while settling the prompt estimate, and non-streaming requests write their row in a straight line.
- StreamLifecycle.StreamCompletes: says nothing of a body dropped without a running runtime, where no task is spawned.
- Tunnel: one live socket per agent id (a second socket would be unregistered by the first one's cleanup); token issue and validation, `sweep_stale` and request contents are not modelled; the pending map is not bounded, since calls that timed out stay in it until an answer or the end of the socket.
- PolicyEngine.ResolversAgreeIff: on one list of candidates; an empty provider name in a rule's condition, which Python reads as absent, is not modelled.
- RouterStore.StoresAnswerAlike: both stores see the same clock, which does not run backwards from 0; counters are those of the current day; override providers have a name. Unreadable stored values and store outages are not modelled.
- HTTP, WebSocket and TLS handling, configuration loading, audit database, metrics, authentication, header masking, provider adapters, proxy pools and in-flight slots.
