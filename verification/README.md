# Verified model of the Prism control plane's money engine

This project models the metering and money logic of the control plane and proves what the code and its
comments promise about it: the append-once ledger with its running totals, the spend gate in front of it,
the reconciliation protocol that trues it up against the gateway's cost feed, the stream metering that
feeds it, and the smaller cores beside them (pricing in doubles, exact decimals, rate limiting, DER, chat
turns, the per-user credential, the long-run job, the live speech session).

Check everything with `dafny verify dfyconfig.toml`.

## How it is organised

| files | what they model |
|---|---|
| `Ledger`, `Calls`, `Requests`, `AuditTrail`, `Pools`, `Booked`, `Store` | the D1 tables, each store call as a program counter over its statements, any interleaving and any crash between two statements; what one finished call books on its own fields; the store itself as a class whose methods are those calls run to their end |
| `Balance`, `Overlap`, `RateLimit` | the dual-pool gate and split, sequential and overlapping; the fixed-window limiter |
| `Reconcile`, `ReconcileRun`, `Schedule`, `RunsInTurn`, `Coverage` | one decision, one run, many runs in turn as a schedule and as repeated calls, runs that overlap or die |
| `Truth`, `FirstTrueUp`, `Hourly` | what the true-ups achieve: for any history of the store, for one first batch, and for runs interleaved with recording |
| `Text`, `Json`, `Scanner`, `Anthropic`, `Pipeline`, `Synthetic`, `Relay`, `EndToEnd` | the incremental stream readers and writers, end to end, the settle-once relay, and a streamed answer from its events to its ledger row |
| `Double`, `Meter`, `Arith`, `Decimal` | pricing as computed in IEEE doubles and as exact integers; decimal text to integer money |
| `Der`, `Certificate`, `Issued` | the DER reader, the ECDSA signature conversion, the shape of an accepted certificate, and written certificates read back |
| `Turns`, `Credential`, `LongRun`, `Speech` | turn alternation, mint/store/revoke, the retried workflow, the Durable Object session |
| `Wrappers`, `Sums` | the optional value and a few facts about sequences |

Money is integer micro-USD, unbounded; instants are integers. Code that updates state in place is a class
or a loop proved against a specification function; the theorems are about those functions. What comes from
outside is a parameter: the clock, fresh identifiers, the feed as seen page by page, JSON parsing and
printing (`Json.Codec` says what is used of them), the text decoder (it yields pieces of the decoded
stream), image readers, certificate times, and a reply for every external call.

## Where the code says less, or more, than its comments

- A true-up in the credit direction advances the balance even when its grant row was ignored. "Credit is
  the sum of the grants" therefore needs operator keys outside the `aig:` namespace
  (`AuditTrail.CreditLawBreaksExactlyOnClash`, `AuditTrail.NamespaceCollisionInflatesCredit`).
- "Overshoot by at most one request" is one request per period once a plan has a monthly allowance
  (`Balance.LifetimeOvershootExactlyWhen`).
- The limiter's worst burst is 2 * limit - 1, one less than documented, and some stream reaches it for every
  limit and every window of two seconds or more; a one-second window allows the limit only
  (`RateLimit.BurstBound`, `RateLimit.BurstBoundIsTight`).
- A run whose cap falls inside a group of equal timestamps loses the rest of the group to every later run
  (`Schedule.SplitTieIsLost`). A sequence of runs covers its window if and only if no cap does that
  (`Schedule.RunsCoverTheWindow`).
- With nothing processed the watermark jumps to the settling ceiling, although the comment says it stays; it
  stays exactly when the ceiling has not passed it (`Schedule.WatermarkAdvancesExactlyWhen`), and nothing
  settled lies in between (`Schedule.IdleRun`).
- A run can move the stored watermark back. It does exactly when it has something to move it by and stopped
  short of where an overlapping run has put it since (`Coverage.MovesBackExactlyWhen`,
  `Coverage.OverlapMovesWatermarkBack`); coverage holds all the same.
- Several gateway rows for one request each count, so the published figure falls short of the biller's by the
  request's estimate for each row past the first, and exceeds it by the estimate of each ledger row never
  compared (`Truth.OffByTheMiscounted`). With two rows it is the biller's only if the estimate was zero
  (`Truth.TwoRowsOneRequest`, `FirstTrueUp.SeveralGatewayRowsCountEach`).
- At any moment the published figure lacks exactly what is in flight or was lost by calls that died
  (`Hourly.FigureAtAnyMoment`). Once calm it is the biller's if and only if the compared estimates add up to
  the period's (`Hourly.MonthIsBilledExactlyWhen`).
- Reasoning tokens are added to the reported output only when they are the larger number. A provider that
  counts them apart is read right if and only if the visible output was smaller: of 100 tokens and 50 of
  reasoning told apart, 100 are billed (`Meter.ReasoningIsBilledOnceExactlyWhen`,
  `Meter.SmallerReasoningIsDropped`).
- With k requests in flight the bound of one request of overshoot becomes k requests, less one micro-USD
  (`Overlap.OverlapBound`, attained by `Overlap.SpentBoundIsTight`).
- A text delta after `message_stop` is emitted after `[DONE]` (`Pipeline.TextBehindTheSentinel`). All text
  precedes the sentinel if and only if no text delta follows the first stop, and the sentinel is the last
  frame if and only if no delta, count or keepalive event does (`Pipeline.TextPrecedesDoneExactlyWhen`,
  `Pipeline.DoneIsLastExactlyWhen`). A side never counted is reported as zero.
- The synthesized stream cuts text every 48 UTF-16 units. A surrogate pair on a cut is measured as six
  bytes instead of four, so the byte count an estimate rests on is then too high
  (`Synthetic.CountedExactlyWhenNoPairIsCut`, `Synthetic.AnEmojiOnTheBoundary`).
- "Any request that consumed tokens records at least one micro-USD" fails for tokens on a side without a
  rate (`Meter.FreeDespiteARate`). A measured request is free if and only if each side has no tokens or no
  rate (`Meter.FreeExactlyWhen`).
- Pricing in doubles is exact for charges up to 9,007,199,254 micro-USD and not beyond
  (`Double.PricingIsExactExactlyUpTo`).
- Retrying a ledger write that died between two statements never repairs it: the ledger stays where the
  first write left it. A job can end succeeded with its row in the ledger and no column moved
  (`LongRun.SucceededButUndercharged`); it is charged in full if and only if its first write got through the
  statements its row needs (`LongRun.ChargedInFullExactlyWhen`).
- The store can point at a dead token: exactly when a mint's store write took effect, was reported lost, and
  the revoke meant to undo the mint went through (`Credential.FateOfTheNewToken`).

## Model

| member | source | states |
|---|---|---|
| `Calls.StatementConserves` | src/store-d1.ts:59-456 | one statement of any store call moves money only between its column, the amounts in flight, the amounts lost and what the audit rows promise |
| `Calls.MoneyIsConserved` | src/store-d1.ts:59-456 | over every interleaving, repeat and crash of the four money calls, each column plus in-flight plus lost amounts equals the sum of its audit rows plus credit no grant backs |
| `Calls.NeverOverApplied` | src/store-d1.ts:275-339 | every error falls in the under-applied direction: a column never exceeds its audit sum by more than the unbacked credit |
| `Calls.QuiescentColumnsAreExact` | src/store-d1.ts:59-456 | with nothing in flight or lost every column equals its audit sum |
| `AuditTrail.RowsAreUniqueAndPermanent` | src/store-d1.ts:59-456 | no audit row is ever duplicated, changed or removed by any history |
| `AuditTrail.ReplayMovesNothing` | src/store-d1.ts:275-300 | once a call's row has landed, repeating the call moves nothing, whatever happened in between |
| `AuditTrail.GateCloses` | src/store-d1.ts:275-300 | the first statement that changes anything leaves the row that closes the gate |
| `AuditTrail.CreditIsAlwaysBacked` | src/store-d1.ts:376-456 | with disjoint key namespaces no history advances credit without its grant row |
| `AuditTrail.CreditLawBreaksExactlyOnClash` | src/store-d1.ts:434-455 | a credit true-up keeps credit explained by grants if and only if no grant row clashes with its own |
| `AuditTrail.NamespaceCollisionInflatesCredit` | src/store-d1.ts:434-455 | a top-up under a true-up's key leaves exactly the true-up's amount of credit that no grant explains |
| `Pools.PoolsPayForEverything` | src/store-d1.ts:275-339 | in every quiescent crash-free state the metered total of an account's periods is the allowance burned plus the credit spent, true-ups aside |
| `Booked.RecordedUsage` | src/store-d1.ts:275-339 | a new metered request adds its credit part to spent, its allowance part and its charge to its period and its own row to the ledger; an unmetered one only counts; a repeat changes nothing |
| `Booked.GrantedCredit` | src/store-d1.ts:86-108 | a new top-up adds its row and its amount, a repeat nothing |
| `Booked.CreatedAccount` | src/store-d1.ts:59-84 | an account opens with the granted credit, nothing spent and its grant row, or not at all |
| `Booked.AppliedTrueUp` | src/store-d1.ts:376-456 | a new true-up is spent or granted, counted in its own direction in the ledger row's period, and nothing else |
| `Booked.AccountAddsUp` | src/store-d1.ts:59-456 | in every quiescent crash-free state an account's credit is the sum of its grants, and its spending that of its metered requests' credit parts and upward true-ups |
| `Booked.PeriodAddsUp` | src/store-d1.ts:275-456 | and each of a period's six columns is the sum over its own requests and true-ups |
| `Store.Db.CreateAccount` | src/store-d1.ts:59-84 | account and opening grant appear together, or neither when either clashes |
| `Store.Db.GrantCredit` | src/store-d1.ts:86-108 | a top-up is applied once per key and answers the balance as stored |
| `Store.Db.RecordUsage` | src/store-d1.ts:275-339 | a new row, its period and its credit charge, on the event's own fields; a repeat changes nothing |
| `Store.Db.ApplyUsageAdjustment` | src/store-d1.ts:376-456 | a true-up moves money once per key, in its own direction and period |
| `Store.Db.GetUsageEventByRequestId` | src/store-d1.ts:349-356 | finds the ledger row of a request, and none only when there is none |
| `Store.Db.AdvanceReconcileState` | src/store-d1.ts:475-499 | null arguments keep the stored watermark and id, counters add up, and no maximum is taken |
| `Store.StateAddsUp` | src/store-d1.ts:475-499 | over any number of runs the state row counts them, adds up what they saw and adjusted, and keeps the last watermark and log id any of them gave |
| `Store.Db.ClaimRateBucket` | src/store-d1.ts:641-663 | one claim rolls the window or counts inside it |
| `Store.Db.CheckRateLimit` | src/rate-limit.ts:77-92 | the stored decision is the pure one on the claimed bucket |
| `RateLimit.CheckRefinesDecideExactlyWhen` | src/rate-limit.ts:32-92 | the claim-and-check form agrees with the pure decision if and only if the window does not roll, or limit and window are both at least one |
| `RateLimit.CheckExactly` | src/rate-limit.ts:77-92 | an attempt opens a window or counts in it, is allowed up to the limit, and is told how long the window still runs |
| `RateLimit.BurstBound` | src/rate-limit.ts:32-92 | any half-open interval one window long holds at most 2 * limit - 1 allowed claims, and at most the limit when the window is one second |
| `RateLimit.BurstBoundIsTight` | src/rate-limit.ts:32-92 | for every limit and window a stream of claims attains that maximum |
| `RateLimit.RetryAfterIsExact` | src/rate-limit.ts:77-92 | a denied caller is allowed at an instant if and only if it has waited the answered time |
| `Balance.SplitIsExact` | src/balance.ts:137-150 | the two parts are non-negative and add up to the charge, and credit is touched only once the allowance is used up |
| `Balance.VerdictExactlyWhen` | src/balance.ts:82-130 | indeterminate exactly when a stored number cannot be trusted, exhausted exactly when both pools are gone, and otherwise what is left of each is offered |
| `Balance.SplitExactlyWhen` | src/balance.ts:137-150 | the allowance pays as far as it goes, an unreadable one nothing, and a charge that is not positive costs nothing |
| `Balance.ServedExactlyWhen` | src/routes/chat.ts:178-278 | a chat request is served exactly when either pool has anything left, and then pays in full |
| `Balance.UnitServedExactlyWhen` | src/routes/nonchat.ts:203-258 | a unit request is served exactly when both pools together cover one unit, or the unit is free and anything is left |
| `Balance.SequentialOvershoot` | src/balance.ts:82-150 | in one period, one request at a time, the allowance is never exceeded and credit by less than one request |
| `Balance.UnitRequestsNeverOvershoot` | src/routes/nonchat.ts:203-258 | the single-unit pre-flight never lets an account past its credit at all |
| `Balance.LifetimeOvershootExactlyWhen` | src/routes/chat.ts:178-214 | the one-request bound holds over an account's life if and only if there is no allowance or no request costs more than one micro-USD |
| `Overlap.OverlapBound` | src/routes/chat.ts:178-278 | with k requests in flight, in any interleaving and with any of them dying, the allowance is exceeded by at most k - 1 requests' shares of it and credit by at most k requests less one micro-USD |
| `Overlap.SpentBoundIsTight` | src/routes/chat.ts:178-278 | for every plan, account, request cap and k some interleaving spends exactly that much credit |
| `Overlap.AllowanceBoundIsTight` | src/routes/chat.ts:178-278 | and some interleaving burns exactly that much allowance |
| `Reconcile.LookupIsSkippedExactlyWhenUnused` | src/reconcile-run.ts:136-146 | the ledger read is skipped if and only if no ledger row could change the decision |
| `Reconcile.DecisionExactlyWhen` | src/reconcile.ts:90-174 | which refusal is given when, and otherwise agreement or the whole difference in its direction |
| `Reconcile.KeysAreDistinct` | src/reconcile.ts:176-180 | two gateway rows never share an idempotency key, and every key is in the true-up namespace |
| `Reconcile.Tally` | src/reconcile.ts:218-256 | every counter counts its own kind of decision, and spend minus credit is billed minus estimated |
| `Reconcile.NetIsGatewayMinusEstimate` | src/reconcile.ts:157-256 | the net of any list of genuine decisions is what was billed minus what was estimated |
| `ReconcileRun.ProcessBatch` | src/reconcile-run.ts:201-253 | the row loop decides exactly the settled rows there is room for, in order, and applies exactly those |
| `ReconcileRun.PageThrough` | src/reconcile-run.ts:188-259 | the paging loop ends on every finite feed, and reads and applies what its specification says |
| `ReconcileRun.RunReconcile` | src/reconcile-run.ts:156-353 | a whole run: what it reports, what it changes, and the watermark as its last write, none of it when dry or failed |
| `ReconcileRun.UnmatchedExactlyWhen` | src/reconcile-run.ts:278-290 | the reverse check reports, in ledger order, exactly the ledger rows among the first 500 of the window that no processed gateway row carries |
| `ReconcileRun.MissingExactlyWhen` | src/reconcile-run.ts:278-290 | row by row: in the window, among its first 500, and carried by none |
| `ReconcileRun.RowsReported` | src/reconcile-run.ts:200-228 | the findings and the billed sum of a run, read off its gateway rows and the ledger |
| `ReconcileRun.PagesAreCounted` | src/reconcile-run.ts:188-259 | the report counts every malformed row on its pages, and a run is cut short exactly when a row it could read there was not processed |
| `ReconcileRun.FailsExactlyWhen` | src/reconcile-run.ts:188-200 | a run fails exactly when every page so far was full and processed to its end and the next one did not answer |
| `ReconcileRun.ArgsAreClamped` | src/reconcile-run.ts:171-175 | the row cap, the page size and the settling ceiling of a run |
| `Schedule.PagingReadsFirst` | src/reconcile-run.ts:188-259 | page size is invisible: a run reads the first rows of its window |
| `Schedule.RunVisits` | src/aig-logs.ts:282-326 | on any feed that shows every settled row, a run visits exactly the settled rows above its floor, up to its cap |
| `Schedule.NothingPassedOverExactlyWhen` | src/reconcile-run.ts:209-212 | a run passes over no row if and only if its cap does not split a group of equal timestamps |
| `Schedule.PassedOverForGood` | src/aig-logs.ts:286-292 | a row at or below the floor is visited by no run of any later sequence |
| `Schedule.SplitTieIsLost` | src/reconcile-run.ts:209-212 | two rows of one instant and a cap of one: whatever runs follow, the second is never visited |
| `Schedule.WatermarkAdvancesExactlyWhen` | src/reconcile.ts:289-304 | the watermark never moves back within a run, and moves forward if and only if the settled instant has passed it |
| `Schedule.IdleRun` | src/reconcile.ts:298-303 | a run with nothing to process jumps to the settling ceiling, and no row lies between |
| `Schedule.RunsCoverTheWindow` | src/reconcile-run.ts:156-353 | a sequence of runs visits, once each and in order, exactly the rows up to where it stops, if and only if none of its caps splits a group of equal timestamps |
| `Schedule.DistinctInstantsKeepTies` | src/reconcile-run.ts:209-212 | distinct timestamps keep every sequence of runs from splitting one |
| `Schedule.LiveRunsApplyVisits` | src/reconcile-run.ts:231-252 | a sequence of live runs writes what one pass over all their visits would write |
| `Schedule.ScheduleIndependence` | src/reconcile-run.ts:156-353 | any page sizes and caps that reach a watermark without splitting a tie leave the same tables as one uncapped run to it |
| `Schedule.BacklogDrains` | src/reconcile-run.ts:172-259 | k capped runs that split no tie work through the first k * cap rows of a backlog |
| `Schedule.DrainedExactlyWhen` | src/reconcile-run.ts:172-259 | a backlog of n rows is drained by k runs if and only if k * cap is at least n and no tie is split |
| `RunsInTurn.ReconcileInTurn` | src/reconcile-run.ts:156-353 | calling the run method again and again, each call minting its own ids from the stored watermark on, leaves the tables and the watermark the schedule says |
| `RunsInTurn.SchedulesAgree` | src/reconcile-run.ts:156-353 | two such sequences that stop at one watermark without splitting a tie leave the same tables |
| `Coverage.WatermarkIsCovered` | src/reconcile-run.ts:156-353 | after any history of truncated, killed, failed or overlapping runs whose finished runs split no tie, every row up to the stored watermark was decided and every adjusting decision has its audit row |
| `Coverage.NothingIsLost` | src/reconcile-run.ts:342-353 | the same, for one row from an empty start |
| `Coverage.MovesBackExactlyWhen` | src/store-d1.ts:475-499 | a finishing run moves the stored watermark back if and only if it has something to move it by and stopped short of where it stands |
| `Coverage.UndisturbedRunsOnlyAdvance` | src/store-d1.ts:475-499 | so a run that read the watermark as it still stands never moves it back |
| `Coverage.OverlapMovesWatermarkBack` | src/store-d1.ts:475-499 | two overlapping runs can |
| `Truth.PublishedFigure` | src/routes/account.ts:86-89 | at every moment of any history, crashes included, the published figure and what is outstanding are the period's estimates plus its stored true-ups |
| `Truth.ReconciledFigure` | src/routes/account.ts:86-89 | so, for any genuine decisions behind the stored true-ups, they are what the biller charged, plus the period's estimates, less the compared ones |
| `Truth.ReconciledIsBilledExactlyWhen` | src/routes/account.ts:86-89 | after any quiet crash-free history the published figure is the biller's if and only if the compared estimates add up to the period's |
| `Truth.ReconciledTruth` | src/routes/account.ts:86-89 | so when each ledger row of the period has exactly one compared gateway row |
| `Truth.OffByTheMiscounted` | src/routes/account.ts:86-89 | otherwise it is too low by the estimates of rows compared again and too high by those never compared |
| `Truth.TwoRowsOneRequest` | src/upstream.ts:745-770 | in any quiet history, a request with two gateway rows leaves the figure short by its estimate, and right only when that was zero |
| `FirstTrueUp.TrueUpsNetOut` | src/reconcile-run.ts:231-252 | one batch, none of it written before, moves a period's figure by billed minus estimated of its compared rows, in whatever month it runs |
| `FirstTrueUp.QuietHistoryLeavesUntouched` | src/store-d1.ts:275-456 | after any quiet crash-free history a period without true-ups publishes exactly what its ledger rows metered |
| `FirstTrueUp.FirstTimeApplied` | src/reconcile-run.ts:229-253 | distinct gateway rows not yet adjusted, under unused row ids, are all written for the first time |
| `FirstTrueUp.FirstTrueUpIsBilledExactlyWhen` | src/routes/account.ts:86-89 | the figure a first batch leaves is the biller's if and only if the compared estimates add up to the metered figure |
| `FirstTrueUp.FirstTrueUpTruth` | src/routes/account.ts:86-89 | so when that batch compares each ledger row of the period once |
| `FirstTrueUp.SeveralGatewayRowsCountEach` | src/upstream.ts:745-770 | a concrete request: billed 27, published 17 |
| `Hourly.DecisionsStand` | src/reconcile.ts:157-174 | a decision made against a growing ledger either came before its ledger row or is the one any later moment would make |
| `Hourly.TrueUpsAreWarranted` | src/reconcile-run.ts:229-251 | in every history every stored true-up names a gateway row and a ledger row that agree on request and account, carries their exact difference, and falls in the ledger row's period |
| `Hourly.PassExplains` | src/reconcile-run.ts:200-253 | after any interleaving of recording, runs, repeats and crashes the stored true-ups of a period are those of one pass over the landed gateway rows against today's ledger |
| `Hourly.FigureAtAnyMoment` | src/routes/account.ts:86-89 | at every moment of every such history the published figure and what is outstanding are what the biller charged for those rows, plus the period's estimates, less the compared ones |
| `Hourly.CalmLandsAll` | src/reconcile-run.ts:231-252 | with no call dead or in flight a gateway row has landed if and only if some run compared it |
| `Hourly.MonthIsBilledExactlyWhen` | src/routes/account.ts:86-89 | then the published figure is the biller's if and only if the compared estimates add up to the period's |
| `Hourly.MonthIsBilled` | src/routes/account.ts:86-89 | in particular whenever each ledger row of the period was compared with exactly one gateway row, however runs and recording interleaved |
| `Hourly.LiveRunIsAHistory` | src/reconcile-run.ts:200-253 | a live run over any rows, row by row, leaves the tables its decisions applied in order leave, so runs in turn are among these histories |
| `Truth.PreviewThenRun` | src/reconcile-run.ts:229-353 | a dry run changes nothing and foretells the live run's decisions, totals, findings and unmatched rows |
| `Text.SplitResumes` | src/stream.ts:48-57 | splitting can resume from the open line alone, wherever the text was cut |
| `Text.Utf8LengthOfParts` | src/stream.ts:105-121 | two parts measured apart are too long by two bytes exactly when the cut splits a surrogate pair |
| `Text.TrimTakesTheEnds` | src/stream.ts:68-72 | trimming takes exactly the white space at both ends |
| `Scanner.SseUsageScanner.Push` | src/stream.ts:48-57 | one chunk: the finished lines are read in order and only the open line is kept |
| `Scanner.SseUsageScanner.End` | src/stream.ts:60-66 | the flushed last line is read once |
| `Scanner.SseUsageScanner.ConsumeLine` | src/stream.ts:68-91 | which lines count as frames, the last usage wins, and text is added up |
| `Scanner.SseUsageScanner.CountOutputText` | src/stream.ts:105-121 | both wire shapes, text deltas only |
| `Scanner.ChunkingIsInvisible` | src/stream.ts:48-66 | however a stream is chunked, the scanner ends where one scan of the whole text ends |
| `Scanner.AnyStreamIsRead` | src/stream.ts:40-121 | whatever a source sends, however chunked: the scanner ends with the last usage object on any line, in either wire shape, and the size of all assistant text in either |
| `Json.SomeCodec` | src/stream.ts:73-80 | what is assumed of JSON parsing and printing can be met for any objects ever sent |
| `Anthropic.AnthropicSseToOpenAI.Push` | src/anthropic-sse-to-openai.ts:207-214 | one chunk of Anthropic text becomes exactly the frames its payloads call for |
| `Anthropic.AnthropicSseToOpenAI.End` | src/anthropic-sse-to-openai.ts:216-230 | the stream is closed once, with what is known, when no stop came |
| `Anthropic.AnthropicSseToOpenAI.PayloadFrames` | src/anthropic-sse-to-openai.ts:118-192 | one payload's frames and its effect on the state record |
| `Anthropic.FramesOnTheWire` | src/anthropic-sse-to-openai.ts:56-108 | every frame property by property, as a client reads it |
| `Anthropic.StartNamesTheStream` | src/anthropic-sse-to-openai.ts:118-131 | a message's own identifier, its provider prefix exchanged, names the chunks after it |
| `Pipeline.StreamIsWellFormed` | src/anthropic-sse-to-openai.ts:85-192 | every event sequence gives one role-open frame before all text, one finish frame, one sentinel, every text delta in order under its message id, and usage as last counted before the first stop |
| `Pipeline.TextPrecedesDoneExactlyWhen` | src/anthropic-sse-to-openai.ts:147-178 | all text precedes the sentinel if and only if no text delta follows the first stop |
| `Pipeline.DoneIsLastExactlyWhen` | src/anthropic-sse-to-openai.ts:147-192 | the sentinel is the last frame if and only if nothing that speaks follows the first stop |
| `Pipeline.TextBehindTheSentinel` | src/anthropic-sse-to-openai.ts:147-178 | a stop and then a text delta: the text arrives behind the sentinel |
| `Pipeline.TransformIsChunkFree` | src/anthropic-sse-to-openai.ts:197-246 | the transformer's output depends on the text only, not on how it was cut |
| `Pipeline.ScanOfWire` | src/stream.ts:68-121 | scanning the wire of any frames yields their text bytes and their last usage |
| `Pipeline.UpstreamIsRead` | src/anthropic-sse-to-openai.ts:232-245 | named events with either line ending are read back payload by payload |
| `Pipeline.PipelineIsExact` | src/anthropic-sse-to-openai.ts:85-246 | Anthropic payloads, any chunking, the transformer, any chunking, the scanner: exactly the bytes of the text deltas, and under prompt_tokens and completion_tokens the counts the payloads last carried before the first message_stop |
| `Synthetic.WriteText` | src/anthropic-sse-to-openai.ts:355-358 | the cutting loop writes one delta frame per slice |
| `Synthetic.SlicesAreFull` | src/anthropic-sse-to-openai.ts:353-358 | every slice but the last is 48 units |
| `Synthetic.AnswerIsWhole` | src/anthropic-sse-to-openai.ts:306-381 | the synthesized stream delivers the whole answer between one open frame and one sentinel |
| `Synthetic.FailureIsUnmetered` | src/anthropic-sse-to-openai.ts:361-372 | a failed call sends the first 200 units of its message and ends the stream cleanly with no text and no usage |
| `Synthetic.CountedExactlyWhenNoPairIsCut` | src/anthropic-sse-to-openai.ts:353-358 | its byte count exceeds the answer's by two per surrogate pair cut, so it is right if and only if none is |
| `Synthetic.AnEmojiOnTheBoundary` | src/anthropic-sse-to-openai.ts:353-358 | such an answer exists |
| `Relay.MeteredRelay.SettleOnce` | src/stream.ts:184-202 | settles at most once, with what the scanner saw |
| `Relay.MeteredRelay.Pull` | src/stream.ts:206-222 | one resolved read: relayed while live, scanned always, ended or failed |
| `Relay.MeteredRelay.Cancel` | src/stream.ts:223-230 | a client hanging up settles as cancelled |
| `Relay.SettlesExactlyOnce` | src/stream.ts:178-232 | every interleaving relays exactly the chunks before the first termination and settles exactly once, with that termination and one scan of those chunks |
| `Relay.CompleteMeansEverything` | src/stream.ts:206-213 | a source silent after its end is relayed whole |
| `Relay.OneStreamOneRow` | src/routes/chat.ts:410-480 | one stream leads to one ledger row: what its usage object reports at the rates, rounded up; four bytes to the token, rounded down, when the client hung up before any; nothing otherwise; out of the allowance first |
| `EndToEnd.AnthropicAnswerIsCharged` | src/anthropic-sse-to-openai.ts:85-246 | a streamed Anthropic answer, however chunked twice over and relayed, leads to one row charging the tokens its events last carried at their rates |
| `Meter.UsageIsRead` | src/meter.ts:69-116 | token counts are read under either spelling, the native object first, reasoning added exactly when it is the larger, and nothing is read from anything else |
| `Meter.StreamIsCharged` | src/routes/chat.ts:413-476 | what a stream costs, on the fields of its usage object |
| `Meter.ReasoningIsAddedExactlyWhen` | src/meter.ts:87-116 | reasoning is added to the reported output if and only if it is the larger, so the billed output is at least the reasoning count |
| `Meter.ReasoningIsBilledOnceExactlyWhen` | src/meter.ts:87-116 | visible and reasoning tokens are billed once each if and only if the provider counts them together or the visible part is the smaller |
| `Meter.SmallerReasoningIsDropped` | src/meter.ts:97-112 | 100 tokens and 50 of reasoning told apart are billed as 100 |
| `Meter.RoundingDirections` | src/meter.ts:134-164 | measured lies in [exact, exact + 1), estimated in (exact - 1, exact], and only an exact zero is free |
| `Meter.FreeExactlyWhen` | src/meter.ts:118-138 | a measured request is free if and only if each side has no tokens or no rate |
| `Meter.FreeDespiteARate` | src/meter.ts:118-138 | five input tokens, rated on output only, are free |
| `Meter.EstimateNeverOvershoots` | src/meter.ts:286-343 | a cancelled stream's estimate never exceeds the measured price of usage that dominates it |
| `Meter.ChargedAsComputed` | src/meter.ts:158-164 | the charge computed in doubles is the exact charge while the numerator fits 53 bits |
| `Meter.StreamRowIsClassified` | src/routes/chat.ts:413-476 | which of the three settlements a stream gets, in both directions |
| `Meter.BuiltRowsArePaid` | src/routes/chat.ts:245-278 | every row built is split on the period as read, allowance first, keeps its identity and is sound to record |
| `Meter.UnitRowIsPaid` | src/routes/nonchat.ts:300-351 | a unit door's row is floor(units) times the rate, split on the period as read, allowance first |
| `Double.RoundingsAreExact` | src/meter.ts:134-164 | floor and ceil of the correctly rounded quotient are those of the true quotient |
| `Double.PricingIsExactExactlyUpTo` | src/meter.ts:158-164 | every price up to a cap is exact in doubles if and only if the cap is at most 2^53 millionths of a micro-USD |
| `Double.OverIsMispriced` | src/meter.ts:339-343 | two exact token counts at rate one that floor() overcharges |
| `Decimal.ParseReads` | src/aig-logs.ts:169-178 | every text the grammar writes is parsed to its own parts |
| `Decimal.ParseWrites` | src/aig-logs.ts:169-178 | nothing outside the grammar is accepted |
| `Decimal.DigitsCountByPlace` | src/aig-logs.ts:136-168 | digits count by their place, tenfold each place to the left |
| `Decimal.ConvertsExactlyWhen` | src/aig-logs.ts:136-189 | the conversion answers m if and only if the text is grammatical with a small exponent and m is the least safe integer not below the scaled value |
| `Decimal.ConvertersAreExact` | src/aig-logs.ts:136-189 | USD text gives the least micro-USD not below a million times it, and USD per token the least per million tokens, or nothing |
| `Decimal.ConversionIsMonotone` | src/aig-logs.ts:136-189 | a larger amount never converts to less |
| `Decimal.OnlyZeroConvertsToZero` | src/aig-logs.ts:119-135 | an amount that is not zero never rounds to free |
| `Decimal.ScalesAgree` | src/aig-models.ts:72-101 | the per-million-token rate is at most a million times the micro-USD price and more than a million times one less |
| `Decimal.ZeroShortcut` | src/aig-models.ts:76-76 | answering zero before parsing changes nothing |
| `Der.ReadTlv` | src/x509.ts:30-52 | the moving-offset reader computes the declarative reading at every offset |
| `Der.ReadsExactlyWhen` | src/x509.ts:30-52 | a TLV is read exactly where a single-byte tag, a length of at most four digits and that much content stand |
| `Der.ReadUndoesWrite` | src/x509.ts:30-52 | any single-byte tag with up to four length bytes is recovered, wherever it stands |
| `Der.Place` | src/x509.ts:314-322 | one coordinate: leading zeros stripped, right-aligned, nothing else of the buffer touched |
| `Der.DerEcdsaToP1363` | src/x509.ts:305-325 | the buffer-filling conversion computes its specification |
| `Der.ConversionKeepsValues` | src/x509.ts:305-325 | it accepts exactly one SEQUENCE of two non-empty INTEGERs whose unsigned values fit, and keeps both values |
| `Der.ConversionUndoesEncoding` | src/x509.ts:305-325 | it undoes the minimal encoder for every r and s of the coordinate size |
| `Certificate.ParseOuter` | src/x509.ts:155-178 | accepts exactly the outer shape |
| `Certificate.NothingIsLeftOver` | src/x509.ts:155-178 | an accepted certificate is its header and exactly its three parts, to the last byte |
| `Certificate.OuterUndoesWrite` | src/x509.ts:155-178 | a certificate written from its parts is accepted and gives them back |
| `Certificate.ParseFields` | src/x509.ts:180-233 | accepts exactly the fields in order, adjacent, with both algorithm copies equal |
| `Certificate.ReadExtension` | src/x509.ts:246-270 | one extension as the loop body reads it, CA flag included |
| `Certificate.ParseTrailer` | src/x509.ts:235-274 | both extension loops end on every input and read the list field by field |
| `Certificate.TrailerExactlyWhen` | src/x509.ts:235-274 | the trailer is accepted exactly when it is a row of fields and extension lists, and says what those say in order |
| `Issued.TrailerUndoesWrite` | src/x509.ts:235-274 | any written trailer is read back as the identifiers of all its extensions in order and the last CA flag among its basicConstraints, false when there is none |
| `Certificate.ParseCertificate` | src/x509.ts:155-290 | accepts a byte string if and only if it has the whole shape |
| `Issued.IssuedCertificateIsRead` | src/x509.ts:155-290 | any certificate written field by field is accepted and gives its fields, its extensions and its CA flag back |
| `Turns.Normalise` | src/upstream.ts:177-217 | the push, merge-in-place and shift loops compute the specified turns |
| `Turns.MergeInto` | src/upstream.ts:200-213 | text joins the last text block, everything else is appended |
| `Turns.TurnsAreTheConversation` | src/upstream.ts:176-228 | for every message list the turns start with the user and strictly alternate, are run by run the conversation from its first user message on, and are block by block every picture in order with one text, the join of all that was said, behind the pictures of the first message heard |
| `Turns.SystemsAreHoistedInOrder` | src/upstream.ts:249-308 | non-blank system text is hoisted whole and in order, and nothing else is |
| `Credential.CfUserTokenProvider.ForAccount` | src/token-minter.ts:160-262 | one call: read, budget, sweep, mint, store, and undo on failure |
| `Credential.CfUserTokenProvider.RevokeForAccount` | src/token-minter.ts:264-273 | revokes at Cloudflare first and marks the row after |
| `Credential.ServingAnswers` | src/token-minter.ts:160-262 | which answer when: the stored token while it opens, else one minted and stored, else unavailable; a failed lookup throws |
| `Credential.ServingRecords` | src/token-minter.ts:217-262 | what is on our books and on Cloudflare's afterwards |
| `Credential.ServingLeavesLive` | src/token-minter.ts:202-262 | what is live afterwards: one same-named token swept, the mint added, and removed again when it was undone |
| `Credential.RevokingExactly` | src/token-minter.ts:264-273 | revoking goes to the recorded token, or else to a live one of the account's name, answers nothing exactly when there is neither, and what it leaves after every failure |
| `Credential.OkNamesTheStoredToken` | src/token-minter.ts:160-262 | an answer always names the account's stored, unrevoked token |
| `Credential.ServingSparesRecordedTokens` | src/token-minter.ts:202-215 | serving never revokes a token the store already pointed at before the call, whatever fails |
| `Credential.OrphansAppearExactlyWhen` | src/token-minter.ts:217-259 | an unrecorded live token appears if and only if a mint's reply was lost, or both the store write and its undo failed |
| `Credential.FateOfTheNewToken` | src/token-minter.ts:217-259 | when the token minted in a call stays live, when the store ends up pointing at it, and the one way it points at a dead one |
| `Credential.SweepRemovesOneOrphan` | src/token-minter.ts:202-215 | a sweep that goes through removes one same-named orphan and nothing else |
| `Credential.BudgetIsKept` | src/token-minter.ts:185-200 | no call takes the live rows past the budget |
| `Credential.RevokedMeansDead` | src/token-minter.ts:264-273 | a confirmed revocation means the token is dead, the row says so and nothing else changed |
| `Credential.HistoryIsHonest` | src/token-minter.ts:160-273 | over every sequence of calls and failures the store never says revoked of a live token and stays within its budget |
| `Requests.LedgerIsTheFirstWrite` | src/store-d1.ts:275-339 | any number of attempts at one request's write, each dying anywhere, leave the ledger where the first left it |
| `Requests.WholeExactlyWhen` | src/store-d1.ts:275-339 | an interrupted write is whole if and only if it ran the two or three statements its row needs |
| `LongRun.PlaneLongRunWorkflow.Execute` | src/routes/longrun-workflow.ts:83-304 | the three retried steps compute the specified outcome |
| `LongRun.NeverCalledAfterAGoodAnswer` | src/routes/longrun-workflow.ts:103-236 | the provider is called at most twice, and never after an answer without a failure state |
| `LongRun.InvokeExactly` | src/routes/longrun-workflow.ts:103-236 | at most two attempts, the second only when the first brought no answer, and what the step yields |
| `LongRun.RehostExactly` | src/routes/longrun-workflow.ts:238-257 | at most three attempts to keep the asset, the first that keeps it decides |
| `LongRun.JobSucceedsExactlyWhen` | src/routes/longrun-workflow.ts:83-303 | the workflow ends without an error exactly when an asset was produced and kept and one of four attempts to finalize got through, and what the job says when it does not |
| `LongRun.JobWritesOnce` | src/routes/longrun-workflow.ts:259-370 | the ledger is untouched without an asset, and otherwise ends where the first finalize write left it |
| `LongRun.ChargedInFullExactlyWhen` | src/routes/longrun-workflow.ts:306-370 | the job is charged exactly its units at the rate, out of what the stored period leaves of the allowance and then credit, in full if and only if its first write got through the statements its row needs |
| `LongRun.SucceededButUndercharged` | src/routes/longrun-workflow.ts:259-297 | a first write that dies after its insert: the job ends succeeded, its row promises the whole price and no column has moved |
| `LongRun.JobEnds` | src/routes/longrun-workflow.ts:259-303 | a job ends succeeded with its asset and its ledger row, or failed; it stays running only if the failure could not be written |
| `Speech.MinutesAreCapped` | src/stt-util.ts:9-12 | whole minutes rounded up, at least one, at most the session cap |
| `Speech.ChargedExactlyWhen` | src/stt-session.ts:378-506 | a finalize writes a row if and only if it can attribute the session, to the client's own account; a charged one if and only if every check passes, for whole minutes at the rate, out of what the stored period leaves of the allowance and then credit |
| `Speech.SttSession.Finalize` | src/stt-session.ts:342-513 | one finalize: nothing when already done, else one ledger write |
| `Speech.SessionChargesOnce` | src/stt-session.ts:275-510 | however often close, error, timer and wakes finalize a session, the ledger ends where the first write left it |
| `Speech.WhatEndsASession` | src/stt-session.ts:275-342 | messages never charge a session whose upstream lives; closing, failing, the timer, or a message after an eviction does |
| `Speech.SessionIsChargedExactlyWhen` | src/stt-session.ts:342-513 | over a whole session the ledger's row is the one owed on what the first finalize that reached it found |
| `Speech.OneWriteWithoutEviction` | src/stt-session.ts:342-354 | within one life of the object only one finalize writes |

## Left out

- HTTP routing, headers, request validation, media storage, signed URLs and sockets: plumbing without a deep invariant.
- WebCrypto, HMAC, JWT and store-purchase verification: foreign primitives. Token encryption appears only as an opening that may fail.
- Network clients (fetch, AI binding, token API, log API): each is a reply chosen by the environment.
- The catalog table, per-model parameter builders and provider body extractors: case tables one reading settles.
- Ledger columns that carry no money (model, token counts, reason, upstream status): they do not influence any figure proved here.
- Second-granularity of the reconcile date comparison and the order of equal `created_at` ledger rows: instants are integers and ledger rows come in insertion order.
- The drift alert is compared as an exact rational, not in doubles.
- Overlap.OverlapBound: the gate reads account and period in one step, placed at the account read; a gate that passes on a later period read also passes on the earlier one, because the allowance spent only grows.
- Clock readings that go backwards: the limiter's bound is for nondecreasing claims.
- Lone surrogates on the decoded wire: decoded text is scalar values; string values inside JSON are UTF-16 units and may hold any.
- Counts beyond 2^53 inside provider usage objects: token counts are unbounded integers, and the sum reported as total_tokens is exact.
- Keepalive timers and the pump around the two synthesized streams: keepalives appear as frames, not as time.
- LongRun.NeverCalledAfterAGoodAnswer: a step is retried only when its function throws; a runtime that loses a step's record after its effect is not modelled.
- Credential.HistoryIsHonest: sequential calls only, because two concurrent mints can both pass the budget check.
- Inner certificate fields are read where the previous one ends; that they stay inside the signed part is not checked by the code and not claimed.
- Certificate times, the public-key import and the signature verification: times are a parameter, the rest is not part of this model.
- OpenAI-shaped and Responses request bodies: field renaming without a merging loop.
- Speech session open, ticket handoff and message forwarding: only what leads to a charge is kept.
