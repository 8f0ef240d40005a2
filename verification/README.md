# patchbay: a verified model

patchbay is an LLM gateway. It authenticates a client, picks a backend, relays the backend's
server-sent event stream byte for byte while reading token usage out of a copy, charges that usage to
the client's budget, and exposes counters in the Prometheus text format. This project models the logic
of that path in Dafny and proves what the gateway relies on. `dafny verify dfyconfig.toml` checks it.

## Structure

| module | models | main results |
|---|---|---|
| `Sse`, `EventStream`, `Scanner` | the event-boundary search, the scanner object, and the interpreter of the HTML Living Standard, section 9.2.6 | the boundary search is the first decided blank line, at byte level |
| `Refinement`, `Chunking` | what the scanner extracts, over every byte stream and every cutting | the scanner refines the standard; the cutting is irrelevant unless the cap is hit; overflow is exact and monotone, and keeps what was learnt |
| `Relay` | the poll/drop state machine | faithful fused trace, stalls exactly, exactly one truthful summary |
| `LedgerMachine` | the budget ledger as a step system: any number of calls, one flusher, a crash anywhere | one object per key, conservation, crash safety, restart period |
| `LedgerProgress` | the same step system | no call is stuck for good: every run can be completed, and then everything recorded has arrived |
| `BudgetLedger` | the ledger's objects, used by one thread | `check` exactly; a rebuilt ledger holds what was flushed |
| `Overshoot` | check and record as separate atomic accesses of many requests | a tight bound on overshoot, and exactly when it is one request's worth |
| `Labels`, `Metrics`, `Counting`, `Exposition` | label strings, counters, the metrics handle, the printer | decodable labels, exact counts, canonical text, and back from the page to the counts |
| `TpmWindow` | the tokens-per-minute window | never over-reports; twice the limit in any 60 seconds exactly while window totals fit in 64 bits, tight |
| `Router`, `Ewma` | classification, filtering, policies, moving averages | private routing is independent of external backends; closed form of the average |
| `Server` | the request handler: retries and accounting | at most six attempts, all posted to one admitted backend, 3875 ms of waits, budget and metrics never drift apart |

Objects that the program updates in place are classes; each method is proved against a function of
the old state, and the theorems are about those functions. Code that runs concurrently is modelled as
atomic steps: a critical section or one access to one atomic field per step, in any order.

`u64` values wrap around where the program's would: `fetch_add` always does, `+` and `+=` do in a
build without overflow checks, which is the build modelled.

The JSON readers are parameters (functions from bytes or text to an optional result); so are the
clock readings, the upstream's behaviour, the hash behind the jitter and the verdict of the
request-rate limiter. All theorems hold for every choice of them. Where a snapshot file matters, its
text format is assumed to round-trip (`LedgerMachine.RoundTrips`).

## Findings

Places where the code does less than its documentation says, or something a reader might not expect.
The code was followed.

- **End of stream.** A CR that completes a blank line at the very end of a stream is never resolved,
  so the event before it is lost. `EndOfStreamExact` gives the exact condition, `MissedLastEvent` the
  shortest kind of stream: `data:x`, CR, CR.
- **Overflow.** The comment on the cap (src/upstream.rs:95-98) says accounting degrades to "no usage
  observed". The summary reports the last usage of the events complete before the overflow, so the
  comment is right exactly if none of them reported any (`OverflowKeepsUsage`). `UsageSurvivesOverflow`
  is a stream on which it is wrong: one usage event, then a line over the cap.
- **Overshoot.** The project's own README and the comment on `check` speak of one request's worth, or
  a small margin. The bound is one proposal per concurrent request except one (`OvershootExactly`), and
  every protocol reaches it (`OvershootAttained`). One request's worth is right exactly if the spare
  slots hold no more than one proposal: with a limit that admits the greatest proposal, if at most two
  requests of a key are under way at a time (`OverByOneExactly`). All of this fails exactly where a sum
  in the check can reach 2^64; there is then no bound short of the counter's range (`TopReached`).
- **Wrap-around in the check.** `would_exceed` compares a sum that may wrap around, so a request can
  slip under a limit. `CheckExact` says for which inputs; `WrappedCheckErrs` shows one.
- **Period of a snapshot.** A ledger's period start is fixed when it is built and never advances. A
  restart finds a snapshot exactly while the period in which the ledger was built lasts
  (`RestartFinds`). A flush reads no clock, so a snapshot that was flushed after that, however
  recently, is lost (`SnapshotOutlived`).
- **Window.** The tokens-per-minute counter allows up to twice the limit in 60 consecutive seconds,
  and that is reached for every limit at any time (`RollingBoundAttained`). Twice the limit is certain
  exactly while no window adds up to 2^64 tokens or more (`RollingBoundExact`). Once windows wrap
  around, a single second can admit any number of tokens, for every limit (`WrapAdmitsAnything`).
- **Request counter.** A forwarded request counts under no status at all exactly if an attempt fails
  for good, such as with a 4xx other than 429, and all attempts before it failed retryably
  (`CountedExactly`), although the counter's documentation lists "4xx" (src/metrics.rs:109-110). A
  first attempt answered 404 is enough (`NotFoundIsUncounted`, `UncountedRequest`).

## Model

| member | source | states |
|---|---|---|
| Sse.FindEventBoundary | src/upstream.rs:134-151 | the search loop returns the boundary function's answer for every buffer |
| Sse.BoundaryMeaning | src/upstream.rs:119-151 | the answer is the first place where two different line terminators are adjacent and the second is already decided; none exactly if there is no such place, for any mix of LF, CRLF and lone CR |
| Sse.BoundarySpecUnique | src/upstream.rs:131-133 | that byte-level description admits one answer only, so no other search satisfies it |
| Sse.BoundaryStable | src/upstream.rs:134-151 | a boundary found in a prefix is the boundary, at the same indices, in every extension |
| Sse.EventShape | src/upstream.rs:131-133 | the body cut off holds no blank line and ends in no terminator; the separator is exactly two terminators |
| Scanner.UsageScanner.Feed | src/upstream.rs:154-174 | append, cut out every complete event and learn from it in order, then drop everything and latch if more than 1 MiB is left; nothing at all after the latch |
| Scanner.UsageScanner.ProcessEvent | src/upstream.rs:176-228 | the tokenising loop joins the data lines with LF, ignores events without one, and updates the done flag or the last usage |
| Refinement.DataField | src/upstream.rs:215-221 | the literal prefix test on `data:` is the standard's field-name rule |
| Refinement.BodyThenTerminator | src/upstream.rs:176-204 | after the last line of an event the standard's data buffer is exactly what the loop collected; it is empty exactly if no data line was seen |
| Refinement.EventAgrees | src/upstream.rs:176-228 | one event with its blank line dispatches exactly the extracted payload, or nothing for both |
| Refinement.ScannerRefinesInterpreter | src/upstream.rs:119-228 | on every byte stream the payloads extracted are the payloads the standard dispatches on the bytes whose meaning is settled, and the bytes kept put both in the same unfinished state |
| Refinement.EndOfStream | src/upstream.rs:122-126 | at the end of the stream the standard has dispatched the scanner's payloads and at most one more, given explicitly |
| Refinement.EndOfStreamExact | src/upstream.rs:122-126 | nothing is missed if and only if the bytes left over do not end in an undecided blank line after a data line |
| Refinement.MissedLastEvent | src/upstream.rs:122-126 | a stream on which the last event is missed |
| Chunking.OneLinePayload | src/upstream.rs:215-228 | byte for byte: the payload of a one-line event is what follows `data:` and at most one space, nothing for a bare `data`, and there is none for any other line |
| Chunking.LineIsEvent | src/upstream.rs:119-151 | byte for byte: a line and two LFs, or two CRLFs, is one event and leaves nothing over |
| Chunking.LoneCrIsEvent | src/upstream.rs:119-151 | two lone CRs end an event as soon as another byte that is not LF has arrived, and not before |
| Chunking.LearnExactly | src/upstream.rs:201-212 | byte for byte: the done flag is set by `[DONE]` alone; the last usage by every other payload that holds `"usage"` in any position and from which usage can be read, and by no other |
| Chunking.UsageIsFound | src/upstream.rs:208-212 | wherever the key stands in the payload, its usage is taken |
| Chunking.UsageChunkIsLearnt | src/upstream.rs:154-213 | a whole chunk `data: `, payload, blank line, fed to a new scanner, leaves exactly that usage |
| Chunking.LosslessPartition | src/upstream.rs:154-165 | the events with their separators, followed by the bytes kept, are the bytes fed; every body is minimal, every separator two terminators |
| Chunking.NoIncompleteInEvents | src/upstream.rs:182-197 | the undecided-CR arm cannot be reached on an event cut out by the feed loop |
| Chunking.SegmentAppend | src/upstream.rs:154-165 | cutting a longer stream continues from the bytes left over and never revisits an event |
| Chunking.FeedAllMeaning | src/upstream.rs:154-174 | feeding in chunks overflows if and only if at some cut more than the cap is left over; from then on the facts are frozen at that cut; otherwise the state depends on the bytes alone |
| Chunking.BufferCapped | src/upstream.rs:166-173 | the buffer is within the cap after every feed and an overflow is final |
| Chunking.ChunkingInvariance | src/upstream.rs:154-174 | without overflow every cutting leaves the scanner as feeding the whole stream at once does |
| Chunking.FedScannerRefinesStandard | src/upstream.rs:154-228 | fed in any non-overflowing cutting the scanner knows exactly what the standard's dispatched events teach |
| Chunking.FinerOverflowsEarlier | src/upstream.rs:154-174 | a finer cutting overflows at the same byte or earlier, having learnt from a prefix of the coarser one's events |
| Chunking.LearnedExactly | src/upstream.rs:201-212 | the last usage is that of the last payload that reports any, none exactly if none does; the done flag is set exactly if some payload is `[DONE]` |
| Chunking.OverflowKeepsUsage | src/upstream.rs:95-98 | after an overflow no usage is reported if and only if no event complete at that cut reported any; otherwise the last one's is |
| Chunking.LongLineOverflows | src/upstream.rs:166-173 | a line longer than the cap overflows after any complete events, and keeps all they taught |
| Chunking.UsageSurvivesOverflow | src/upstream.rs:95-98 | a stream that overflows and still reports usage |
| Relay.SseRelay.constructor | src/upstream.rs:251-270 | a new relay is live, unreported, and its stall timer is armed from construction |
| Relay.SseRelay.ReportOutcome | src/upstream.rs:280-289 | the reporter is taken at the first report; later reports send nothing |
| Relay.SseRelay.PollNext | src/upstream.rs:295-329 | each of the five branches of a poll: new state and what the client gets |
| Relay.SseRelay.Drop | src/upstream.rs:332-339 | dropping reports a client disconnect if nothing was reported |
| Relay.RelayMeaning | src/upstream.rs:295-329 | every run, in terms of the script alone: live with everything scanned, or ended at the first poll that ends it |
| Relay.OneTruthfulSummary | src/upstream.rs:69-81 | after a drop exactly one summary was sent; its outcome says how the run ended, and usage, done flag and byte count are those of exactly the chunks relayed |
| Relay.FaithfulTrace | src/upstream.rs:235-237 | poll by poll the client sees the upstream's chunks, then the end or one error, then only the end, whatever the scanner does |
| Relay.StallExactly | src/upstream.rs:300-327 | a stall is reported if and only if the stream is live, the upstream pending, and the timeout has passed since construction or the last chunk |
| Relay.LastPollExactly | src/upstream.rs:300-328 | case by case, what the poll of a live relay gives the client and which outcome the one summary names |
| Relay.ActivityExactly | src/upstream.rs:263-305 | the timer runs from the last chunk, or from construction if there was none |
| Relay.FinishedHasReported | src/upstream.rs:280-339 | a finished relay has given its reporter away, and the number of summaries sent matches |
| Relay.RunRelay | src/upstream.rs:248-339 | a relay object that is polled by any script and then dropped yields exactly the outputs and the summary of that script's trace |
| LedgerMachine.OneObjectPerKey | src/budget.rs:252-273 | over every interleaving of lookups and inserts at most one counter object ever exists for a key |
| LedgerMachine.AddKeepsOthers | src/budget.rs:65-72 | a fetch-add changes one field of one key's object and nothing else |
| LedgerMachine.MemoryInvHolds | src/budget.rs:252-306 | in every reachable state each stored field is the restored value plus what the calls have added so far, modulo 2^64 |
| LedgerMachine.ConcurrentConservation | src/budget.rs:304-306 | once no call is under way each field is the restored value plus the sum of everything recorded for the key, modulo 2^64 |
| LedgerProgress.BlockedExactly | src/budget.rs:252-273 | a call that is not done makes no progress if and only if it waits to insert while a flush holds the lock |
| LedgerProgress.RecordCompletes | src/budget.rs:252-306 | from any state in which no flush is loading five steps of a call finish it and move no other call |
| LedgerProgress.FlushCanWrite | src/budget.rs:331-345 | a loading flush can always go on to writing, with no call moved |
| LedgerProgress.RunCompletes | src/budget.rs:252-345 | every run, at any point, can be completed without a new call |
| LedgerProgress.EveryRecordArrives | src/budget.rs:65-72 | and then each of a key's three numbers is the restored one plus the sum of just that number over the key's calls, modulo 2^64 |
| LedgerMachine.FlushInvHolds | src/budget.rs:326-351 | in every reachable state the flush under way is accurate so far and the snapshot file holds the flush renamed last |
| LedgerMachine.CrashSafe | src/budget.rs:214-240 | after a crash at any step, mid-write included, the next start finds the last completed or just renamed flush, every field between its live values at that flush's start and end; in another period it finds nothing |
| LedgerMachine.RestoredInRange | src/budget.rs:74-89 | without wrap-around the restored value itself lies between the two live values |
| LedgerMachine.SamePeriod | src/budget.rs:171-179 | two instants fall in the same period exactly if the later comes before the end of the earlier one's period |
| LedgerMachine.PeriodExactly | src/budget.rs:171-179 | a period starts at the latest multiple of its length that the clock has reached; zero seconds count as one |
| LedgerMachine.RestoreExactly | src/budget.rs:217-240 | the entries of a readable snapshot of this very period; nothing without a file, without a readable one, or for another period |
| LedgerMachine.RestartFinds | src/budget.rs:209-240 | a restart finds the surviving snapshot exactly while the period in which the ledger was built lasts |
| LedgerMachine.SnapshotOutlived | src/budget.rs:341-344 | for every codec, key, usage and restart after that period, a run that completes a flush which is not empty and of which the restart finds nothing |
| BudgetLedger.CheckExact | src/budget.rs:93-122 | the check never refuses what fits, and accepts only what fits unless every dimension fits or slips under its limit by wrapping and some slips |
| BudgetLedger.WrappedCheckErrs | src/budget.rs:94-102 | an input that does not fit and is accepted |
| BudgetLedger.CheckByField | src/budget.rs:93-122 | prompt, completion and total are each held against their own limit, in this order, and the refusal carries that number as used and that limit |
| BudgetLedger.UnlimitedAdmits | src/budget.rs:276-282 | a key without a configured limit is never refused |
| BudgetLedger.AddToByField | src/budget.rs:65-72 | each of the three numbers grows by its own, modulo 2^64 |
| BudgetLedger.KeyCounters.AddUsage | src/budget.rs:65-72 | each field grows by its own amount modulo 2^64 |
| BudgetLedger.KeyCounters.Restore | src/budget.rs:82-89 | the three fields are those of the entry |
| BudgetLedger.KeyCounters.WouldExceed | src/budget.rs:93-122 | the answer is the first refusing dimension in the order prompt, completion, total, with its current value and limit |
| BudgetLedger.Ledger.constructor | src/budget.rs:209-250 | exactly the entries of a readable snapshot of this period are restored, in separate objects |
| BudgetLedger.Ledger.CountersFor | src/budget.rs:252-273 | a known key keeps its object and the table is unchanged; a new one gets a fresh zero object and no other entry changes |
| BudgetLedger.Ledger.Check | src/budget.rs:293-300 | first refusal under the key's limit or none; at most a zero entry is created |
| BudgetLedger.Ledger.Record | src/budget.rs:304-306 | the key's three fields grow by the usage, every other key is untouched |
| BudgetLedger.Ledger.UsageFor | src/budget.rs:309-322 | the stored value of a known key, nothing for an unknown one, and nothing is created |
| BudgetLedger.Ledger.TakeSnapshot | src/budget.rs:331-344 | the snapshot holds every key's stored value and the ledger's own period start |
| BudgetLedger.Rebuild | src/budget.rs:209-250 | a ledger rebuilt from another one's snapshot holds exactly what that one held if the period is the same, and nothing otherwise, in objects of its own |
| Overshoot.OvershootExactly | src/budget.rs:284-306 | from any value within the limit and over every interleaving, recorded plus still committed usage stays within the limit plus one admissible proposal for every concurrent request but one, in every limited dimension, if and only if that bound and one more proposal fit in 64 bits |
| Overshoot.MarginExactly | src/budget.rs:284-306 | for every margin: recorded usage never exceeds the limit by more if and only if the margin holds the spare proposals and no sum can reach 2^64, or limit and margin exhaust the counter's range |
| Overshoot.SerialExactly | src/budget.rs:284-306 | with one request at a time the limit is never exceeded, if and only if limit and proposal together fit in 64 bits (or the limit is the top of the range) |
| Overshoot.OvershootAttained | src/budget.rs:289-292 | for every protocol whose bound fits in 64 bits and every limited dimension some interleaving reaches the bound exactly |
| Overshoot.TopReached | src/budget.rs:93-122 | where a sum can reach 2^64, some interleaving drives the counter to 2^64 - 1, whatever the limit |
| Overshoot.OverByOneExactly | src/budget.rs:289-292 | no run exceeds the limit by more than one proposal, where no sum can reach 2^64, if and only if the spare slots hold no more than one; if the limit admits the greatest proposal, that is at most two requests under way |
| Labels.EscapeIsEach | src/metrics.rs:210-215 | the three replacement passes do not interfere: together they escape each character once |
| Labels.EscapeExactly | src/metrics.rs:210-215 | a backslash, a double quote and a newline become their two-character forms, every other character stays |
| Labels.UnquoteEscaped | src/metrics.rs:210-215 | reading an escaped value up to its quote gives the value back, whatever follows |
| Labels.LabelSetRoundTrip | src/metrics.rs:111-149 | reading a formatted label set gives back its names and values |
| Labels.LabelSetNoNewline | src/metrics.rs:210-215 | a formatted label set never spans lines |
| Labels.RequestLabelIsSet | src/metrics.rs:112-117 | the request label is the label set of its three names with the raw values |
| Labels.TokenLabelIsSet | src/metrics.rs:128 | the token label is a label set although its kind is inserted unescaped; the kind's word is pinned by the counter lemmas below |
| Labels.RequestLabelInjective | src/metrics.rs:112-117 | different (backend, model, status) triples have different label strings |
| Labels.TokenLabelInjective | src/metrics.rs:123-129 | different (key, kind) pairs have different label strings, although the kind is not escaped |
| Labels.OneLabelInjective | src/metrics.rs:134-148 | different backends, and different keys, have different label strings |
| Metrics.LabeledCounters.GetOrCreate | src/metrics.rs:52-63 | an absent counter is created at zero, a present one kept |
| Metrics.LabeledCounters.Add | src/metrics.rs:69-71 | one counter grows by n modulo 2^64, no other changes |
| Metrics.LabeledCounters.Inc | src/metrics.rs:65-67 | one counter grows by one, no other changes |
| Metrics.LabeledCounters.Snapshot | src/metrics.rs:74-82 | every counter once, in label order, whatever order the map is walked in |
| Metrics.SnapshotUnique | src/metrics.rs:73-82 | there is only one such list |
| Metrics.BeforeExactly | src/metrics.rs:80 | the order is that of the first differing character, and a string comes before those it begins |
| Counting.MetricsHandle.RecordTokens | src/metrics.rs:122-131 | the loop bumps the prompt, completion and total counters of the key, each by its own amount |
| Counting.MetricsHandle.RecordRequest | src/metrics.rs:111-119 | exactly the one request counter of the triple is bumped |
| Counting.MetricsHandle.RecordUpstreamError | src/metrics.rs:134-137 | exactly the backend's error counter is bumped |
| Counting.MetricsHandle.RecordRateLimitRejection | src/metrics.rs:140-143 | exactly the key's rate-limit counter is bumped |
| Counting.MetricsHandle.RecordBudgetRejection | src/metrics.rs:146-149 | exactly the key's budget counter is bumped |
| Counting.OwnCounter | src/metrics.rs:111-149 | no event touches another event's counter |
| Counting.ExactCount | src/metrics.rs:111-149 | after any history a counter exists exactly if its event occurred, and holds the number of occurrences modulo 2^64 |
| Counting.ExactTokens | src/metrics.rs:122-131 | after any history a token counter holds the sum of that kind used under that key modulo 2^64 |
| Counting.PromptTokens | src/metrics.rs:123-129 | the counter under the kind `prompt` holds the sum of the prompt tokens of the key's uses, modulo 2^64 |
| Counting.CompletionTokens | src/metrics.rs:123-129 | the counter under the kind `completion` holds the sum of the completion tokens |
| Counting.TotalTokens | src/metrics.rs:123-129 | the counter under the kind `total` holds the sum of the total tokens |
| Counting.CountIsMultiplicity | src/metrics.rs:65-67 | the count of an event is its multiplicity in the history |
| Counting.ApplyAllValue | src/metrics.rs:65-71 | events move every counter by exactly what they contribute to it, modulo 2^64, whatever it held |
| Counting.AbsentKeepsCounter | src/metrics.rs:111-149 | a run of events without a given event neither creates nor moves its counter |
| Counting.OrderIrrelevant | src/metrics.rs:89-149 | histories that are permutations of each other leave the same counters |
| Exposition.WriteFamily | src/metrics.rs:199-208 | the loop appends the header and one line per counter, or nothing for an empty family |
| Exposition.Render | src/metrics.rs:152-196 | the page is the five families in order, each from its sorted snapshot |
| Exposition.RenderingUnique | src/metrics.rs:152-196 | equal counters are printed byte for byte the same |
| Exposition.PermutedHistoriesPrintAlike | src/metrics.rs:73-208 | permuted histories print byte-identical pages |
| Exposition.DecimalRoundTrip | src/metrics.rs:205-207 | printed values read back, and contain neither a space nor a newline |
| Exposition.SampleRoundTrip | src/metrics.rs:205-207 | a sample line reads back into its name, label string and value, whatever the label values contain |
| Exposition.PageRoundTrip | src/metrics.rs:151-208 | reading a page gives, under each family's name and in page order, exactly that family's sorted snapshot, nothing for an omitted family, and no sample under any other name |
| Exposition.PageMembers | src/metrics.rs:151-208 | a sample is on the page if and only if its family holds that label string with that value |
| Exposition.PageTellsCounts | src/metrics.rs:111-208 | after any history, reading the page and a sample's labels yields an event if and only if it occurred, under one label string, with the number of its occurrences modulo 2^64 |
| Exposition.PageTellsTokens | src/metrics.rs:122-208 | the same for the tokens of each kind used under each key |
| Exposition.PageShowsRequests | src/metrics.rs:155-161 | under `patchbay_requests_total` and a triple's labels stands exactly the multiplicity of that request, modulo 2^64 |
| Exposition.PageShowsErrors | src/metrics.rs:171-177 | under `patchbay_upstream_errors_total`, that of the backend's errors |
| Exposition.PageShowsRateLimits | src/metrics.rs:179-185 | under `patchbay_rate_limit_rejections_total`, that of the key's rate-limit rejections |
| Exposition.PageShowsBudgets | src/metrics.rs:187-193 | under `patchbay_budget_rejections_total`, that of the key's budget rejections |
| Exposition.PageShowsPrompt | src/metrics.rs:122-169 | under `patchbay_tokens_total` and the kind `prompt` stands exactly the sum of the key's prompt tokens, modulo 2^64 |
| Exposition.PageShowsCompletion | src/metrics.rs:122-169 | under the kind `completion`, the sum of the completion tokens |
| Exposition.PageShowsTotal | src/metrics.rs:122-169 | under the kind `total`, the sum of the total tokens |
| Exposition.PageLayout | src/metrics.rs:152-208 | the page is five blocks in this order, each empty or its named help line, type line and samples |
| Exposition.SampleLinesExactly | src/metrics.rs:205-207 | each sample line is the name, the labels, a space and the decimal value |
| TpmWindow.TpmCounter.Add | src/limits.rs:86-96 | restart or add, and the total returned |
| TpmWindow.TpmCounter.Current | src/limits.rs:98-105 | the stored total, or zero once the window has elapsed; nothing changes |
| TpmWindow.RateLimitStore.CounterFor | src/limits.rs:171-190 | a known key keeps its counter, a new one gets a fresh one, no other entry changes |
| TpmWindow.RateLimitStore.RecordTpm | src/limits.rs:212-234 | only the key's window changes; the verdict compares its new total with the key's limit, and an unlimited key is still tracked |
| TpmWindow.RecordExactly | src/limits.rs:86-96 | in numbers: 60 seconds after its start a window is over, until then a call adds to it; a key without a limit is always answered Ok, a limited one if the new total is within the limit |
| TpmWindow.RateLimitStore.CurrentTpm | src/limits.rs:237-239 | the key's current total; at most an empty window is created |
| TpmWindow.WindowCounts | src/limits.rs:83-96 | the stored total is the sum of all adds since the window started, modulo 2^64, and no add is later than its end |
| TpmWindow.NeverOverReports | src/limits.rs:98-105 | the reported total is that sum, modulo 2^64, or zero once 60 seconds have passed, and never more than was added in the trailing 60 seconds, wrapped or not |
| TpmWindow.RollingBoundExact | src/limits.rs:210-234 | if no window adds up to more than m tokens, the calls answered Ok within any 60 consecutive seconds are sure to total at most twice the limit if and only if m fits in 64 bits, for every limit and every m |
| TpmWindow.RollingBoundAttained | src/limits.rs:83-96 | for every limit and at any time two calls one second apart reach twice the limit, with no window above the limit (from 60 seconds after the epoch on) |
| TpmWindow.WrapBreaksBound | src/limits.rs:94 | for every limit and at any time, one token past 2^64 - 1 in one window exceeds twice the limit |
| TpmWindow.WrapAdmitsAnything | src/limits.rs:94 | for every limit, time and number, some calls of a single second that are answered Ok total at least that number |
| Router.PrivateIndependence | src/router.rs:355-371 | for every table, query and policy a private request is routed as a shareable one would be without the external backends |
| Router.PrivateNoninterference | src/router.rs:164-182 | tables that differ only in external backends route every private request alike |
| Router.RoutedIsEligible | src/router.rs:192-208 | whatever index the policy answers, the backend is in the table and eligible; local for a private request |
| Router.CandidatesExactly | src/router.rs:169-182 | the candidates are the table filtered by model, by required tags and, for a private request only, by privacy, in table order |
| Router.RouteExactly | src/router.rs:192-208 | the policy's index in range routes to that candidate; anything else is the error with the query's model, tags and class |
| Router.HonestRoutesExactly | src/router.rs:355-371 | an honest policy routes if and only if some backend serves the model, has every required tag and, for a private request, is local; and it routes to such a backend |
| Router.OnlyLocalExactly | src/router.rs:75-80 | the reference table without external backends is the table filtered by privacy |
| Router.HonestIsComplete | src/router.rs:192-208 | a policy that answers in range routes if and only if some backend is eligible |
| Router.StaticTakesFirst | src/router.rs:236-244 | static priority takes the first eligible backend of the table |
| Router.MinIndexIsFirstLeast | src/router.rs:301-307 | the minimum search returns the first candidate with the least score |
| Router.EwmaRoutesToBest | src/router.rs:298-309 | latency routing takes, of the eligible backends, the first in table order with the least score |
| Router.EwmaPicksFastest | src/router.rs:298-309 | no other backend that may serve the request has a lower average, an unseen one counting as zero |
| Router.ColdBackendIsProbed | src/router.rs:246-249 | an eligible backend without a sample forces a zero score |
| Ewma.EwmaLatency.Observe | src/router.rs:274-286 | only the observed backend's average changes; the first sample is taken as it is; the averages stay those of the whole history |
| Ewma.EwmaLatency.LatencyMs | src/router.rs:289-295 | the answer is the geometrically weighted sum of all latencies observed for the backend so far, and nothing exactly if there is none |
| Ewma.EwmaLatency.Choose | src/router.rs:298-309 | the first candidate with the least score, or nothing exactly if there is no candidate |
| Ewma.AverageClosedForm | src/router.rs:274-286 | after any history an average is the geometrically weighted sum of that backend's own samples, and exists exactly if it has one |
| Ewma.AverageInRange | src/router.rs:274-286 | an average stays within the range of its samples |
| Ewma.AveragesNonNegative | src/router.rs:274-286 | averages of latencies are not negative |
| Ewma.UnseenBackendIsProbed | src/router.rs:246-249 | after any history of latencies an eligible unseen backend forces a zero-score choice |
| Server.RetryMeaning | src/server.rs:174-217 | at most six attempts: all before the last failed retryably, and the last is the first that did not, if any did not; no other outcome fits |
| Server.AttemptsExactly | src/server.rs:174-217 | another attempt is made, up to the sixth, if and only if all so far failed with a connection error, a 429 or a 5xx |
| Server.AnswerExactly | src/server.rs:197-251 | what a forwarded request is answered, by its first attempt that did not fail for now, or by its sixth |
| Server.ForwardedExactly | src/server.rs:132-171 | with an honest policy a request is forwarded if and only if it is within its rate, names a model, and some backend serves that model and, if the key enforces privacy, is local; and what the others are answered |
| Server.TargetExactly | src/server.rs:157-171 | for any policy, the backend it picks from those that serve the model and, if the key enforces privacy, are local; none if its index is out of range |
| Server.TurnedAwayExactly | src/server.rs:132-171 | a request over its rate moves the key's rate-limit counter by one and nothing else; one turned away otherwise moves nothing |
| Server.JitterExactly | src/server.rs:97-111 | jitter adds any amount up to a quarter of the wait, and nothing else |
| Server.TotalWaitBounded | src/server.rs:86-111 | the waits of a request total at most 3875 ms, and at least 3100 if all retries are used |
| Server.UpstreamClient.OpenSse | src/server.rs:186-192 | each call posts once, to the backend it was given and to no other |
| Server.Gateway.TryAttempts | src/server.rs:174-210 | the loop decides as stated, posts every attempt to the given backend, counts one upstream error per failed attempt, and waits once before each retry within the jitter range |
| Server.Gateway.AccountReply | src/server.rs:272-285 | the usage given, if any, goes to the ledger and to the token counters alike; one upstream error is counted exactly if the reply is said to have ended badly |
| Server.BadEndings | src/server.rs:278-332 | a stream has ended badly if and only if the poll that ended it found an upstream failure or a stall; a body if and only if it could not be read |
| Server.SilentStreamStalls | src/server.rs:89-278 | a stream from which nothing has come counts as an error if and only if it is polled thirty seconds or more after its start |
| Server.WorthExactly | src/server.rs:272-340 | what a forwarded request is charged: nothing if no attempt is answered or the body cannot be read, what the body reader finds in a buffered body, what the scanner has learnt from the relayed chunks of a stream |
| Server.RequestIsCharged | src/server.rs:272-340 | the key's ledger entry and its `prompt`, `completion` and `total` counters each grow by that number, and no other key's does |
| Server.Gateway.ServeForwarded | src/server.rs:174-347 | the same of a gateway's own ledger and counters, before and after |
| Server.Gateway.Finish | src/server.rs:212-347 | one 2xx and the accounting of the reply's own usage and ending, one 5xx, or nothing, by how the loop ended |
| Server.Gateway.ChatCompletions | src/server.rs:127-252 | the response, the posts, the waits (3875 ms at most), the counters and the ledger after a request, on every path |
| Server.OneAdmittedBackend | src/server.rs:157-192 | the posts of a request are as many as its attempts, at most six, and all go to the one backend it was routed to, which is in the table, eligible, and local for a private request |
| Server.OtherBackendsUntouched | src/server.rs:157-251 | no error or request counter of any other backend is created or moves, whatever the counters held |
| Server.UpstreamErrorsCounted | src/server.rs:180-203 | the upstream errors counted are the failed attempts, and one more if the reply ended badly |
| Server.RequestsCounted | src/server.rs:205-251 | a forwarded request is counted once as 2xx if relayed, once as 5xx if exhausted, and not at all if passed through |
| Server.CountedExactly | src/server.rs:174-251 | a forwarded request counts under some status if and only if no attempt fails for good with all attempts before it failing retryably |
| Server.NotFoundIsUncounted | src/server.rs:197-203 | any forwarded request that is answered 404 at once is not counted, and 404 is what the client gets |
| Server.UncountedRequest | src/server.rs:197-203 | a backend table and a request that is forwarded and not counted |
| Server.RequestKeepsAgreement | src/server.rs:272-340 | whatever the ledger and the token counters hold, if they agree for every key and kind they still do after any request |
| Server.Gateway.Serve | src/server.rs:127-347 | a gateway whose ledger and counters agree serves any run of requests and they agree afterwards |
| Server.Gateway.ServeNext | src/server.rs:127-347 | if the posts, the counters and the ledger are those of the requests served so far, they are after one more |
| Server.Gateway.ServeAll | src/server.rs:127-347 | a gateway that has served nothing ends with the responses, the posts, the counters and the ledger of exactly the requests it is given |
| Server.Gateway.ServedAgrees | src/server.rs:272-340 | a gateway in the state of any run of requests from its start is in agreement |
| Server.LedgerAndMetricsAgree | src/server.rs:272-340 | over every run of requests from the start the ledger and the token counters hold the same number for every key and kind |
| Server.StreamChargesRelayedChunks | src/server.rs:272-278 | the usage charged for a stream is what the scanner reads from exactly the chunks relayed before it ended; without an overflow, what the events teach that the standard dispatches on those bytes |

## Left out

- The HTTP, TLS, task and waker plumbing (axum, reqwest, tokio): a poll result, a clock reading and the drop are what remains of it. Headers and error bodies are not modelled.
- JSON and TOML parsing: parameters. The `"usage"` pre-filter is modelled as it is; it is not claimed to find a usage object whose key is written with escapes.
- The byte order mark, UTF-8 decoding and the `event`, `id` and `retry` fields of the event-stream standard: the scanner works on bytes and reads `data` only.
- The request-rate limiter behind `check_rpm`: third-party code; its verdict is part of a request.
- Relations between different atomic fields as other threads see them: the accesses are relaxed, so conservation is per field.
- Concurrent window resets in the tokens-per-minute counter: calls are sequential and the clock does not run backwards.
- Two flushes at the same time, a snapshot path whose own extension is `tmp`, and durability of the disk beyond an atomic rename.
- Concurrency inside the metrics maps: the same lookup-then-insert pattern is covered for the ledger.
- The pre-flight budget check in the request path: the handler never calls it, so the overshoot theorems are about the ledger's documented protocol.
- Configuration validation, key lookup, the model list and the health endpoint: field-by-field checks.
- Rounding: averages are over the reals and compared by ordinary order; the finiteness test on a sample is left out because durations are finite.
- Ewma.EwmaLatency.constructor: requires the factor to be in (0, 1], where the program panics otherwise.
- Server.Gateway.ChatCompletions: requests are handled one after another, each with its accounting done; the call to `record_tpm` and the logging are not part of it.
- Server.UpstreamClient.OpenSse: what the upstream answers is an input; the path, the credentials and how a non-2xx answer becomes an error are not part of it.
- Relay.SseRelay.PollNext: `bytes_relayed` wraps around at 2^64.
