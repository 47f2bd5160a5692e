# spendgate, verified

A Dafny model of spendgate, a metering and budget gateway for LLM providers, with proofs about the money it
counts and the bytes it relays. `dafny verify dfyconfig.toml` checks everything.

The gateway reserves an estimated cost on a per-tenant, per-month counter in Redis, forwards the request,
observes the provider's token usage in the response, reconciles the reservation to the actual cost, and hands
a metering event to an asynchronous batch writer. Several replicas share the counters.

| file | models |
|---|---|
| `Sums.dfy`, `Json.dfy` | sums over sequences; JSON values and Go's typed decoding of them |
| `Prices.dfy` | `internal/prices/cost.go`, `toMicro` |
| `Inject.dfy` | `maybeInjectUsage` |
| `Extract.dfy` | the usage extractors of `internal/proxy/extract.go` |
| `Sse.dfy`, `Strip.dfy`, `Stream.dfy` | `streamSSE`: framing, filtering and delivery as functions, then the loop with its buffers, reader and client |
| `Month.dfy` | the UTC calendar and the text of counter keys |
| `Budget.dfy` | the reserve script command by command, its double arithmetic, the counters |
| `Protocol.dfy` | reserve-then-reconcile across replicas as a state machine; conservation |
| `Overshoot.dfy`, `Tight.dfy` | how far a counter can exceed a limit, and that it can |
| `Admission.dfy` | how many equal requests are admitted |
| `Lives.dfy` | counters after their key has expired |
| `Ledgers.dfy` | counter against metering events; months apart |
| `Meter.dfy` | `internal/meter/meter.go` |
| `Auth.dfy` | the TTL cache of `internal/auth/auth.go` |
| `Calls.dfy`, `Gateway.dfy` | what a request is estimated and metered at; `forward` and the methods it calls |
| `EndToEnd.dfy` | reservations, events, prices and clocks in one statement about a tenant's month |
| `Fleet.dfy` | many gateway requests interleaved on many replicas, as runs of the protocol |
| `TenantCap.dfy` | the cap of a tenant over all runs of the fleet, and exactly when it holds |
| `Pipeline.dfy` | the fleet with the batch writer of each replica: what reaches the sinks |

Code that works by updating objects is a class (`Redis`, `Client`, `Extractor`, `Reader`, `Writer`, `Sink`,
`Authenticator`, `Proxy`); its methods are proved equal to functions, and the lemmas are about those functions.
`Protocol`, `Fleet`, `Meter`, `Auth` and `Pipeline` are state machines whose runs are all interleavings. A run
of `Fleet` is any number of budget checks and ends of requests in any order, made of the functions that
`Gateway.Proxy` is proved equal to (`Fleet.ForwardAmongOthers`), and is proved to be a run of `Protocol`
(`Fleet.RunIsProtocol`); `Meter.Writer.Run` is proved to produce a run of its machine.

Parameters instead of effects: clocks, what the provider did, how the source cuts a stream into chunks, which
client write fails, which Redis command is lost, what other replicas do meanwhile, and which events arrive
while the batch writer is busy are arguments over which everything is quantified.

## Where the code differs from what is said about it

- A null `stream_options` makes `maybeInjectUsage` write into a nil map; it panics on exactly these requests
  (`Inject.MaybeInjectUsage`, `Inject.NullOptionsPanics`).
- "Exactly across replicas" (`README.md:5`): the counter can exceed the limit by what the requests in flight
  were underestimated. The cap on the counter holds in all runs if and only if nothing is underestimated
  (`Tight.CapHoldsIff`); the excess is bounded by the requests in flight and the bound is attained.
- What a tenant is metered for is not bounded by its cap when requests are underestimated, nor when reservations
  err and it fails open, for its requests are then forwarded and metered without one. The bound is the cap plus
  what was metered without a reservation plus what was metered beyond the reservations (`TenantCap.MeteredCap`);
  of the latter only requests that were not reconciled at the last admission matter (`EndToEnd.MonthInFlight`).
  The cap holds in all runs whose requests are underestimated by at most w if and only if it is enforced, the
  tenant fails closed and w is zero (`TenantCap.CapHoldsIff`). The month meant is that of the budget check, not
  that of the event's `CreatedAt`.
- A reservation whose answer is lost counts against the cap until its key expires, although the request is
  refused or forwarded without one (`Gateway.OutageDecides`, `Protocol.LostAnswerStays`); that is at least as
  long as its month receives reservations, with clocks 15 days apart (`Ledgers.LostAnswerInMonth`).
- The TTL of 62 days outlives "any calendar month" (`internal/budget/budget.go:16-17`) if and only if clocks are
  off by no more than 15.5 days (`Ledgers.NoExpiryIff`).
- "Revocation takes effect within the TTL" (`internal/auth/auth.go:3`): an older lookup can overwrite a newer
  result, so the bound is the TTL plus the time from a lookup's read to its store (`Auth.Staleness`). The TTL
  alone is a bound of all runs if and only if no time passes between the two (`Auth.WithinTtlIff`,
  `Auth.RevokedButAnswered`).
- "A crash can lose up to one batch" (`README.md:86`): a full channel of 4096 events can be lost besides. One
  batch is the bound exactly while the channel holds no more than the pending batch lacks (`Meter.LossBoundIff`,
  `Meter.LossBoundReached`).
- A counter recreated by a late reconcile can be negative and has no time to live, and no later month's
  reserve gives it one, since that uses another key (`Protocol.NegativeAfterExpiry`, `Month.KeyInjective`). It
  is negative exactly if the late corrections outweigh what was reserved since, and without a time to live
  exactly if there was such a correction and no reservation since (`Lives.NegativeIff`, `Lives.PersistentIff`).
- A usage frame that does not decode is stripped all the same and its usage is lost
  (`Extract.StrippedFrameKnown`, `Extract.StrippedFrameLost`).
- The chars/4 fallback of `DESIGN.md:63` is for buffered replies only: a stream that does not report its usage
  is metered at the counts set last. For OpenAI, and for Anthropic without a usage in message_start, there are
  none, so that it costs nothing and its whole reservation is released, as when an OpenAI client set
  `include_usage` to false (`Calls.FallbackIff`, `Calls.UnreportedStreamIsFree`, `Gateway.OptedOutIsFree`).
- The script decides as exact integers do for every limit below 2^53 micro-USD; at 2^53 exactly one sum is let
  through wrongly (`Budget.ScriptExactUpTo`).

## Model

| member | source | states |
|---|---|---|
| TenantCap.CapHoldsIff | internal/proxy/proxy.go:142-164 | metered plus open spend of a tenant stays within its cap in every month of all runs, over all prices, with clocks 15 days apart and its requests underestimated by at most w, if and only if the cap is enforced, the tenant fails closed and w is zero |
| TenantCap.MeteredCap | internal/proxy/proxy.go:142-164 | in every run with clocks 15 days apart and token counts that are not negative, whatever other tenants do, what a tenant is metered for in a month plus the estimates of its open requests exceeds the highest cap it had by no more than what was metered without a reservation and the sum of max(0, actual - estimate) over its reserved requests |
| TenantCap.FailClosedCap | internal/proxy/proxy.go:150-158 | an enforced cap that fails closed is exceeded by at most w for each metered request if none is underestimated by more |
| TenantCap.HonestIsNear | internal/proxy/proxy.go:166-186 | a provider that stays within the tokens and prices estimated for underestimates nothing |
| TenantCap.CapBroken | internal/proxy/proxy.go:150-154 | a run with one request, not underestimated, forwarded while the store is down, that costs more than the cap |
| TenantCap.CapOverrun | internal/proxy/proxy.go:174-184 | a run with one request whose estimate is the cap and that costs one micro-USD more |
| TenantCap.OpenIsOutstanding | internal/proxy/proxy.go:62-66 | the estimates of the open requests of a tenant and month are those outstanding on its key, also after crashes |
| Fleet.RunIsProtocol | internal/proxy/proxy.go:77-135 | every interleaving of requests, crashes and time, with answers lost, commands not carried out and reservations refused, is a run of the protocol with the same store, a request per reservation and an entry per metering event |
| Fleet.ForwardAmongOthers | internal/proxy/proxy.go:77-135 | one request among others leaves the store and submits the event that Gateway.Proxy.Forward promises, the others' commands being those of their own actions |
| Fleet.StoreIsCommands | internal/budget/budget.go:71-96 | the store after a run of the fleet is the store after its commands |
| Fleet.ProtocolIsCommands | internal/budget/budget.go:71-96 | the store after a run of the protocol is the store after the commands of its events |
| EndToEnd.MonthlyCap | internal/proxy/proxy.go:77-135 | if providers stay within what was estimated for the tenant's requests of the month, only what was metered without a reservation exceeds the limit |
| EndToEnd.MonthOfTenant | internal/proxy/proxy.go:77-135 | in every run of the protocol with crashes, lost answers, failed reconciles and expiries, with clocks 15 days apart, what is metered for a tenant in a month (that of the budget check) plus outstanding estimates is at most the limit of the last admission plus what was metered without a reservation plus what was metered beyond estimates; the exact cost at most half a micro-USD per event more; nothing is asked of other tenants |
| EndToEnd.MonthInFlight | internal/budget/budget.go:54-66 | of requests underestimated by at most w the limit is exceeded by w for each that was not reconciled at the last admission, and by what was metered without a reservation |
| EndToEnd.SpendBound | internal/budget/budget.go:54-96 | what requests of a key have cost or may still cost exceeds the limit of the last admission by no more than their excess over their estimates, for ever, also after the key expired |
| EndToEnd.InFlightBound | internal/budget/budget.go:54-96 | and only by the excess of requests that were not reconciled when that admission was made |
| EndToEnd.HonestCall | internal/proxy/proxy.go:174-186 | estimates are not negative and bound the actual cost of every request within its token and price conditions |
| Protocol.Conservation | internal/budget/budget.go:54-96 | in every run a counter equals the ledger of its key's present life: estimates reserved in it plus corrections settled in it |
| Protocol.UnexpiredLedger | internal/proxy/proxy.go:292-305 | while a key has not expired its counter is outstanding estimates + actual costs of settled requests + stranded estimates |
| Protocol.UnexpiredNonNegative | internal/budget/budget.go:54-96 | hence it is never negative when estimates and costs are not |
| Protocol.NegativeAfterExpiry | internal/budget/budget.go:85-96 | a reconcile after the expiry recreates the key below zero and without a time to live |
| Protocol.LostAnswerStays | internal/budget/budget.go:71-76 | a reservation whose answer was lost is never settled: in every continuation the counter is its estimate plus what the other requests have put there, until the key expires, and then without it |
| Protocol.LostAnswerCounts | internal/budget/budget.go:71-76 | while the key has not expired the counter is at least that estimate, if estimates and costs are not negative |
| Ledgers.LostAnswerInMonth | internal/budget/budget.go:54-66 | whenever the month receives another reserve the lost estimate still counts, so that it is admitted only if it fits besides |
| Lives.LifeLedger | internal/budget/budget.go:54-96 | a counter is what its present life reserved plus the corrections of earlier lives that came late |
| Lives.NegativeIff | internal/budget/budget.go:85-96 | it is negative exactly if the late corrections outweigh what was reserved since; with nothing reserved exactly if they are negative; and, when estimates and costs are not negative, never in a key's first life |
| Lives.PersistentIff | internal/budget/budget.go:85-96 | a counter has no time to live exactly if a correction recreated its key and nothing was reserved since its last expiry |
| Protocol.SettleEffect | internal/proxy/proxy.go:296-305 | a settlement replaces one request and moves only that request's counter, by actual - estimate |
| Protocol.StepConserves | internal/budget/budget.go:54-96 | each single event, of any kind, keeps a counter equal to its ledger |
| Overshoot.CounterBound | internal/budget/budget.go:54-96 | a counter never exceeds the limit of its last admission plus the sum of max(0, actual - estimate) over the requests outstanding at it; without an admission there is no counter |
| Overshoot.OvershootBound | internal/budget/budget.go:54-96 | so the overshoot is at most requests in flight times the worst underestimate, whatever the length of the run |
| Overshoot.HardCap | internal/proxy/proxy.go:166-182 | if nothing is underestimated, counter and settled plus outstanding spend stay at most at the limit of the last admission |
| Overshoot.NoneLater | internal/budget/budget.go:54-66 | no admission on the key comes after the one LastAdmission names |
| Tight.OvershootTight | internal/budget/budget.go:54-96 | for every number of requests and every underestimate there is a run that attains the bound |
| Tight.CapHoldsIff | internal/budget/budget.go:50-53 | the cap holds in all runs whose requests are underestimated by at most w if and only if w = 0 |
| Admission.ExactAdmission | internal/budget/budget.go:54-66 | under every interleaving of reserves, settlements and crashes exactly min(N, limit / est) of N equal requests are admitted |
| Admission.AdmitsIff | internal/budget/budget.go:58-65 | one more equal request is admitted exactly while the quota limit / est is not used up |
| Ledgers.LedgersAgree | internal/proxy/proxy.go:274-290 | at quiescence the counter equals the sum of the micro-USD of the metering events of the key's reserved requests and is within n/2 micro-USD of their exact cost |
| Ledgers.LogMatches | internal/proxy/proxy.go:274-290 | in every run the metering events of a key's reserved requests carry the costs these were reconciled with, and the same excess over their estimates |
| Ledgers.SubmittedOnce | internal/proxy/proxy.go:274-290 | every request that is over and has submitted has exactly one metering event, every other none |
| Ledgers.RoundingOfLog | internal/proxy/proxy.go:186 | rounding each event moves the total of any choice of events by at most half a micro-USD per event |
| Ledgers.OneKeyOnly | internal/proxy/proxy.go:302 | only time touches a key an event is not about; a late settlement touches the key it reserved on |
| Ledgers.NoExpiryInMonth | internal/budget/budget.go:16-18 | no counter has expired when its month still receives reserves, with clocks up to 15 days off |
| Ledgers.NoExpiryIff | internal/budget/budget.go:16-18 | that holds in all runs if and only if clocks are off by no more than 15.5 days |
| Ledgers.CountersFresh | internal/budget/budget.go:54-66 | in every clocked run a month's counter keeps its first expiry, and lacks one only after having expired |
| Month.KeyRoundTrip | internal/budget/budget.go:45-48 | a key's text decodes to its one tenant, UTC year and month |
| Month.KeyInjective | internal/budget/budget.go:45-48 | different tenants or months never share a counter |
| Month.MonthOfRight | internal/budget/budget.go:45-48 | every time lies in its month, which is at most 31 days long |
| Month.MonthUnique | internal/budget/budget.go:45-48 | and in no other |
| Month.MonthStarts | internal/budget/budget.go:45-48 | within a year the months begin at the cumulative days 0, 31, 59, ... 334, one more from March on in a leap year |
| Month.YearLength | internal/budget/budget.go:45-48 | a year has 366 days if it is a leap year by the rule of 4, 100 and 400, else 365 |
| Month.YearStarts | internal/budget/budget.go:45-48 | 1 January of a year is 365 days a year and the leap days after 1 January 1970 |
| Month.FourHundredYears | internal/budget/budget.go:45-48 | the calendar repeats after 146097 days |
| Month.CivilMonth | internal/budget/budget.go:45-48 | every second of a civil day lies in the month of that day |
| Month.KeysOfDates | internal/budget/budget.go:45-48 | the key texts of 1 May 1970 and of the first and last second of January 2026 |
| Budget.ScriptExact | internal/budget/budget.go:55-60 | below 2^53 the test cur + est > limit in doubles decides as exact integers do |
| Budget.ScriptExactUpTo | internal/budget/budget.go:55-60 | up to and including 2^53 it errs exactly for limit 2^53 and sum 2^53 + 1 |
| Budget.DoubleExact | internal/budget/budget.go:55-57 | binary64 rounding fixes every integer up to 2^53 |
| Budget.DoubleMonotone | internal/budget/budget.go:55-58 | and is monotone, so a larger sum never passes where a smaller one fails |
| Budget.DoubleNearest | internal/budget/budget.go:55-58 | and of any size goes to the nearest double, half to even, on both sides of zero |
| Budget.AllowedWithinLimit | internal/budget/budget.go:58-65 | an allowed reservation adds the estimate, ends within the limit and cannot overflow int64; any other adds nothing |
| Budget.ExpirySetOnce | internal/budget/budget.go:61-64 | the time to live is set by the first reserve and never refreshed |
| Budget.Redis.IncrBy | internal/budget/budget.go:61 | INCRBY adds, keeps the time to live and refuses to overflow |
| Budget.Client.Script | internal/budget/budget.go:54-66 | the script's commands leave the store that AfterReserve says and answer accordingly |
| Budget.Client.Reserve | internal/budget/budget.go:71-83 | the same with the answer lost or the command not carried out |
| Budget.Client.Reconcile | internal/budget/budget.go:91-96 | a zero delta sends nothing; any other is added once if it is carried out and fits |
| Gateway.Proxy.Forward | internal/proxy/proxy.go:77-135 | a forwarded request is answered with the provider's status or 502, its client gets the provider's bytes as filtered, and it submits exactly one event on every path, with the cost it is reconciled to; a refused or aborted one submits none; the store sees its two commands with the others' between them |
| Gateway.Proxy.CheckBudget | internal/proxy/proxy.go:142-164 | the verdict and the one command sent, for no cap, no client, allow, deny, and failure open or closed |
| Gateway.Proxy.Enqueue | internal/proxy/proxy.go:274-290 | reconcile and metering event take the one cost of the row |
| Gateway.Proxy.BufferedResponse | internal/proxy/proxy.go:225-242 | the reply is relayed as it is; errors are metered at nothing, replies without usage at chars/4 |
| Gateway.Proxy.StreamResponse | internal/proxy/proxy.go:247-272 | the client gets the filtered stream up to a failure, metered with the usage seen by then |
| Gateway.EventPriced | internal/proxy/proxy.go:274-290 | the cost of a metering event is the price of the provider, model and token counts it names, and these are the row's |
| Gateway.SentOf | internal/proxy/proxy.go:225-228 | a buffered reply reaches the client whole, or up to where its write broke |
| Gateway.CapDecides | internal/proxy/proxy.go:142-164 | with the store answering, a request is refused exactly if its estimate does not fit, told the true spend, and leaves no trace; else the counter stays within the limit; also for a negative counter |
| Gateway.OutageDecides | internal/proxy/proxy.go:150-158 | with the store failing, the tenant's flag alone decides and nothing is reconciled; a command not carried out leaves the store alone, one whose answer was lost leaves the estimate on the counter exactly if it fits |
| Gateway.UnreservedIff | internal/proxy/proxy.go:142-164 | a request goes through unreserved exactly if it has no cap, or the cap is not enforced, or the reservation errs and the tenant fails open |
| Gateway.ClientSetUnfiltered | internal/proxy/proxy.go:324-343 | a request that set include_usage itself is forwarded as it is and its client gets the stream byte for byte, up to a failing write |
| Gateway.OptedOutIsFree | internal/proxy/proxy.go:247-272 | an OpenAI client that sets include_usage to false is metered at nothing for a stream without usage, and the reconcile takes the whole reservation back |
| Gateway.EventIsCommand | internal/proxy/proxy.go:142-164 | every event of the protocol moves the store as the gateway's command does |
| Gateway.RequestIsProtocol | internal/proxy/proxy.go:77-135 | a capped request is a Reserve event with the same command, whatever becomes of it; it has a reservation exactly if that is admitted and answered, and then ends with the command of its Settle event |
| Calls.ActualWithinEstimate | internal/proxy/proxy.go:166-200 | with input at most len(body)/4, output at most the request's ceiling and a model not dearer, actual cost is at most the estimate |
| Calls.CeilingIs | internal/proxy/proxy.go:188-200 | the ceiling is max_tokens if positive, else max_completion_tokens if positive, else 1000, whatever else the body holds; the model is its model member |
| Calls.EstimateAttained | internal/proxy/proxy.go:166-182 | the estimate is the least bound: a request that uses len(body)/4 input tokens and its whole ceiling costs exactly it |
| Calls.FailureReleasesAll | internal/proxy/proxy.go:97-124 | failed requests are metered at 0, which releases the whole reservation |
| Calls.FailedIs | internal/proxy/proxy.go:97-124 | under the model asked for and the status got, 502 if there was none |
| Calls.ReportedRow | internal/proxy/proxy.go:230-242 | a buffered reply is metered at what it reports, under its model name before the request's |
| Calls.EstimatedRow | internal/proxy/proxy.go:235-242 | one that reports no usage is metered at chars/4 and marked so, under the model it names |
| Calls.OpenAIRow | internal/proxy/proxy.go:247-272 | an OpenAI stream as it is written, data line by data line, is metered at the usage its last document reports, injected or not |
| Calls.AnthropicRow | internal/proxy/proxy.go:247-272 | an Anthropic stream is metered at the input of its message_start and the output of its message_delta, whatever other events there are |
| Calls.FallbackIff | internal/proxy/proxy.go:225-272 | a row is estimated exactly if the reply, as far as observed, reports no usage; buffered it is then at chars/4; streamed it is at the counts set last, which for OpenAI, and for Anthropic without a usage in message_start, are 0 and so at chars/4 only below four characters |
| Calls.UnreportedStreamIsFree | internal/proxy/proxy.go:247-272 | a stream that reports no usage, for Anthropic not in message_start either, is metered at no tokens and no cost |
| Calls.InjectedUnnoticed | internal/proxy/proxy.go:254-268 | an injected request's client gets the stream as if the usage frames had never been there |
| Inject.MaybeInjectUsage | internal/proxy/proxy.go:324-348 | computes Outcome; which requests are injected, and which make it panic |
| Inject.InjectedAs | internal/proxy/proxy.go:324-348 | what becomes of a body, by its members: only a literal true asks for a stream; options keep their members and get include_usage, and are replaced if they are no object |
| Inject.InjectionIsMinimal | internal/proxy/proxy.go:332-347 | every other top-level member and every other option is kept, include_usage is set, nothing else is added |
| Inject.InjectionIsIdempotent | internal/proxy/proxy.go:324-348 | a second pass changes nothing and reports false |
| Inject.NullOptionsPanics | internal/proxy/proxy.go:332-338 | a null stream_options panics |
| Stream.StreamSSE | internal/proxy/extract.go:143-186 | for every chunking and every failing write the client gets what Deliver says and the extractor has seen exactly those events' data lines |
| Stream.FlushEvent | internal/proxy/extract.go:147-163 | one event is observed, then dropped, written and flushed, or its failed write ends the call |
| Stream.Reader.ReadBytes | internal/proxy/extract.go:166 | the line read depends on the remaining bytes only, not on their chunks |
| Stream.AtFlush | internal/proxy/extract.go:147-163 | each flush keeps delivery, usage and the fates of writes in step with Deliver |
| Sse.SplitConcat | internal/proxy/extract.go:165-185 | the events of a stream concatenate to the stream |
| Sse.SplitFramed | internal/proxy/extract.go:165-185 | every stream splits into events of which only the last may be unterminated |
| Sse.Resplit | internal/proxy/extract.go:165-185 | framed events written one after the other split into the same events |
| Sse.LinesOfFlat | internal/proxy/extract.go:165-169 | lines written one after the other are read back as they were |
| Sse.TrimmedBare | internal/proxy/extract.go:169-175 | a trimmed text is a piece of the text without white space at its ends |
| Sse.TrimSpaceOf | internal/proxy/extract.go:170-175 | white-space characters around a bare text, whatever they are, are trimmed and the text is left |
| Sse.TrimSpaceSplit | internal/proxy/extract.go:170-175 | every text is its trimmed middle between white-space characters |
| Sse.SpaceAtIff | internal/proxy/extract.go:170 | the white-space characters, by code point and UTF-8 encoding |
| Sse.BlankIff | internal/proxy/extract.go:169-170 | a line ends an event exactly if it consists of white space |
| Sse.DataIff | internal/proxy/extract.go:174 | the data lines are those that begin with "data:" |
| Sse.PayloadOf | internal/proxy/extract.go:174-175 | the payload of the line "data: x" is x, with either line end |
| Sse.WrittenIsRead | internal/proxy/extract.go:165-185 | texts written one to a data line, with an empty line behind each, are the events and the payloads that are read |
| Strip.PassThrough | internal/proxy/extract.go:143-186 | without a filter the output is the input byte for byte |
| Strip.DeliverAll | internal/proxy/extract.go:147-163 | a client that takes every write gets exactly the kept events, and every event is observed |
| Strip.DeliverPrefix | internal/proxy/extract.go:147-163 | a failed write is that of the last event observed: everything kept before arrived whole, of it a prefix, nothing after |
| Strip.DisconnectPrefix | internal/proxy/extract.go:138-142 | a client that fails holds a prefix of the full filtered output |
| Strip.StripIdempotent | internal/proxy/extract.go:143-186 | filtering the output again gives the same events and bytes |
| Strip.InjectThenStrip | internal/proxy/extract.go:52-64 | droppable events put in anywhere they can stand and stripped again leave the original bytes |
| Strip.FrameDropped | internal/proxy/proxy.go:256-265 | an event is filtered exactly if a data line of it is a usage-only frame |
| Strip.WrittenFiltered | internal/proxy/proxy.go:256-265 | a stream as it is written, filtered, is the stream written without its usage-only frames |
| Strip.StrippingKeepsUsage | internal/proxy/extract.go:147-163 | on full runs the usage is the same with any filter |
| Strip.StrippedUsageIsKnown | internal/proxy/extract.go:147-163 | a data line that decodes with usage makes usage known, also in a stripped frame |
| Extract.UsageOfStream | internal/proxy/extract.go:26-107 | for any sequence of documents usage is known iff one was authoritative, and counts and model are the ones set last |
| Extract.ObservedOne | internal/proxy/extract.go:30-50 | what one document changes, by what it carries |
| Extract.ChunkIsRead | internal/proxy/extract.go:30-50 | an OpenAI chunk with prompt_tokens and completion_tokens sets input, output and model, and makes usage known, whatever else is in it |
| Extract.StartIsRead | internal/proxy/extract.go:89-98 | message_start with input_tokens and output_tokens sets input, output and model |
| Extract.DeltaIsRead | internal/proxy/extract.go:99-104 | message_delta with output_tokens sets the output, keeps the input, and makes usage known |
| Extract.AnthropicIsRead | internal/proxy/extract.go:73-107 | a whole stream of these with any other events between and after |
| Extract.UsageOnlyIff | internal/proxy/extract.go:55-64 | which frames are stripped, by their choices and usage members |
| Json.FieldsDecode | internal/proxy/extract.go:32-41 | what decodes into a string, an int and a struct field, and as what |
| Extract.LastSetIsLast | internal/proxy/extract.go:73-107 | the value set last is that of the document after which none sets it |
| Extract.KnownStaysKnown | internal/proxy/extract.go:45-49 | known usage stays known |
| Extract.StrippedFrameKnown | internal/proxy/extract.go:55-64 | a stripped frame makes usage known exactly if it decodes as a chunk |
| Extract.StrippedFrameLost | internal/proxy/extract.go:55-64 | a frame that is stripped although it does not decode |
| Extract.ReportIsRead | internal/proxy/extract.go:111-136 | a buffered reply's reported usage is read back |
| Extract.ModelIsRead | internal/proxy/extract.go:122-136 | and its model also without a usage |
| Extract.Extractor.ObserveChunk | internal/proxy/extract.go:30-50 | updates the fields as ObserveOpenAI says |
| Extract.Extractor.ObserveEvent | internal/proxy/extract.go:73-107 | updates the fields as ObserveAnthropic says |
| Prices.BuildTable | internal/prices/cost.go:14-20 | builds the table the list stands for |
| Prices.LastRowWins | internal/prices/cost.go:14-20 | of several rows with one key the last is the one held |
| Prices.OnlyListedRows | internal/prices/cost.go:14-20 | nothing else is held |
| Prices.CostMonotone | internal/prices/cost.go:22-33 | fewer tokens at prices not higher, an unpriced model being free, cost no more, also after rounding |
| Prices.CostIs | internal/prices/cost.go:25-33 | a million input or output tokens cost their price, tokens add up, and an unknown model costs nothing and is reported |
| Prices.MicroNearest | internal/proxy/proxy.go:186 | toMicro is within half a micro-USD |
| Prices.RoundIff | internal/proxy/proxy.go:186 | the nearest integer, of two the one farther from zero |
| Prices.RoundMonotone | internal/proxy/proxy.go:186 | rounding half away from zero is monotone |
| Meter.FifoExactlyOnce | internal/meter/meter.go:70-127 | in every interleaving handed batches, pending batch and channel are the accepted events in order; batches hold 1 to batchSize; at most 4096 + batchSize events wait |
| Meter.ShutdownDrains | internal/meter/meter.go:109-130 | when Wait returns exactly what was accepted before the drain found the channel empty has been handed over |
| Meter.LossBoundReached | internal/meter/meter.go:42-47 | a run after which 4096 + batchSize events are lost by a crash |
| Meter.LossBoundIff | internal/meter/meter.go:42-47 | a crash loses at most one batch exactly while the channel holds no more than the pending batch lacks; 4096 + batchSize is the least bound of all runs |
| Meter.LateEvents | internal/meter/meter.go:109-124 | what is accepted after the drain is what remains in the channel |
| Pipeline.AcceptedIsFiled | internal/proxy/proxy.go:274-290 | what the writer of a replica that does not crash has accepted is what the replica filed, in order |
| Pipeline.WriterRun | internal/meter/meter.go:81-127 | in it each writer goes through a run of its own machine |
| Pipeline.FleetOf | internal/proxy/proxy.go:77-135 | and the requests through a run of the fleet, a full buffer being an event that is not submitted |
| Pipeline.SinkHasFiled | internal/meter/meter.go:81-130 | when a replica has shut down its batches are the events it filed before its drain ended, in order, all of them exactly if none came later |
| Pipeline.CounterIsSunk | internal/proxy/proxy.go:274-305 | when all replicas have shut down with nothing late and a tenant's requests are reconciled and submitted, the counter is the micro-USD of its events in the batches handed to the sinks |
| Meter.Writer.Submit | internal/meter/meter.go:70-77 | accepts exactly if the buffer has room, never blocks |
| Meter.Writer.TakeOne | internal/meter/meter.go:102-106 | appends to the reused batch array in place |
| Meter.Writer.FlushBatch | internal/meter/meter.go:87-98 | hands the batch over and truncates it, whether or not the write fails; it is persisted exactly if it does not |
| Meter.Writer.Run | internal/meter/meter.go:81-127 | every execution does what its cases say, one after the other, is a run of the state machine, and ends after a cancellation |
| Meter.ReceivedTakes | internal/meter/meter.go:102-106 | a receive takes exactly the next event and hands the batch over exactly if that fills it |
| Meter.TickedHands | internal/meter/meter.go:107-108 | a tick hands over what is pending and leaves nothing pending |
| Meter.TakenCount | internal/meter/meter.go:100-108 | before a cancellation as many events are taken as receives found one |
| Meter.DrainedHandsAll | internal/meter/meter.go:109-125 | what was accepted when the drain begins is handed over when it has ended |
| Meter.Writer.DrainAndStop | internal/meter/meter.go:109-125 | the drain takes and hands over as Drained says, terminates and leaves the writer done |
| Auth.Staleness | internal/auth/auth.go:56-77 | a tenant answered at t is what the source held at some instant in (t - ttl - d, t], in every interleaving of misses, reads and stores |
| Auth.WithinTtlIff | internal/auth/auth.go:72-76 | every answer of every run over every history of the source is younger than the time to live if and only if no time passes between a lookup's read and its store |
| Auth.RevokedButAnswered | internal/auth/auth.go:58-77 | a run, prompt to within d, that answers a revoked tenant after its time to live |
| Auth.NothingFound | internal/auth/auth.go:68-71 | a lookup that errs or finds nothing is not cached and answers nobody; the next resolve asks again |
| Auth.Authenticator.Resolve | internal/auth/auth.go:58-77 | a live entry answers; otherwise the lookup does, and only a tenant is stored, over whatever others stored meanwhile |

## Left out

- HTTP: transport, routing, header copying, authentication headers and status writing; `forward` is modelled from the body on.
- JSON text: parsing and printing are a `Codec` whose output parses back; object members are a map, so duplicate names and Go's case-insensitive matching of struct fields are not modelled.
- Hashing, key generation and bearer parsing: a key hash is a string.
- Redis transport: retries of the client library and the script cache; a command is carried out at most once, with its answer or without.
- Floating point in `Cost` and `toMicro`: reals and exact rounding; the conversion to int64 is not modelled. Doubles are kept where the script compares.
- The reader's error after 100 empty reads (`io.ErrNoProgress`): empty chunks are skipped.
- Latency and creation time of metering events.
- The meter's interval and the sink's timeout: liveness and real time; safety and the end of the drain are proved.
- Postgres, migrations, price seeding, configuration, dashboard, command line, benchmarks and demo.
- Auth.Authenticator.Resolve: one call with what others store meanwhile; all interleavings are in the state machine beside it, which shares its cache functions.
- Gateway.Proxy.Forward: one call with the commands of others as a list; all interleavings are in `Fleet`, tied to it by `Fleet.ForwardAmongOthers`. The text of error answers is not modelled.
- Pipeline.CounterIsSunk: a sink write that fails loses its batch; handed over means given to the sink.
- Fleet.RunIsProtocol: the reconcile and the event of one request are one step; a crash between them is a step that does not submit.
- Meter.Writer.Run: in the object, events arrive between the statements of Run, not within them.
