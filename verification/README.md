# Verification of the hetchy core

Dafny models of the parts of hetchy that carry the most state, with proofs about every run of
them. `dafny verify dfyconfig.toml` checks the whole project.

- **Credits** (`Billing`, `Transactions`, `Store`, `Ledger`, `RunRecords`, `Admissions`). The
  billing tables, the body of each database transaction as one atomic step, the store and the
  service as objects, the records and refusals of a run from start to end, and the ledger over
  every sequence of transactions on any number of organizations and runs: safety,
  conservation, and how often one run may touch a balance.
- **Automatic top-up** (`Topup`, `TopupDecisions`, `TopupProofs`, `TopupProtocol`,
  `TopupMonths`). The purchase loop on its own
  (what success means, when it ends, when it never ends) and any number of loops at once,
  interleaved at their prepare, purchase and complete steps with every other transaction. The
  purchase is an arbitrary function of the idempotency key and the key's hash is arbitrary.
- **Framed run log** (`FramedLog`, `FrameRoundTrip`). The live router, the recovery replay and
  the frames that both read: refinement, chunks, crash recovery, round trip.
- **JSONC** (`Jsonc`, `JsoncMeaning`). The two stripping passes and what they do to the tokens
  of a JSON value (sections 2 and 7 of RFC 8259).
- **`.env.example`** (`EnvExample`). Reader and printer undo each other.
- **Blocks** (`Blocks`, `TeeMirror`, `BlockHistory`). The recorder, the tee, the bisimulation
  between the recorders behind a tee, and what a block says by the calls alone.
- **Limiter** and **Catalog**. The fixed-window limiter with pruning, and the catalog indexes
  against a search through the list.

`Text` and `MapSum` hold the string and sum helpers.

Where code and comments disagree the model follows the code:

- `UpdateBillingCapturedBalances` clamps both columns (`db/queries/billing.sql:169-179`), so
  conservation holds exactly when the clamp does not bite; admissions by the service never
  bring it to that.
- `MonthlyMaxUnits` is stored and never checked (`internal/billing/topup.go:95-107`), so
  nothing is claimed about it.
- `NewRecorder` says that the block in flight is always kept; `Snapshot` keeps the last
  `maxKeep` blocks whatever their status (`internal/blocks/recorder.go:33-37`, `120-137`), as `KeptExactly`
  and `InFlightDropped` show.
- `parseHetchyRunExitCode` reports failure apart from the status, but both callers drop the
  flag, so a garbled status ends the frame with status zero.
- `Resolve` passes a normalized name to `Matches`, which normalizes it again; the catalog is
  searched with the name normalized once (`internal/agents/agents.go:112-133`).

## Model

| member | source | states |
|---|---|---|
| `Billing.CreditsAreQuarterHours` | internal/billing/flavor.go:92-103 | rounding up to minutes and then to blocks of 15 is one rounding up to quarter hours, times the multiplier, for every positive duration |
| `Billing.CreditsMonotone` | internal/billing/flavor.go:92-103 | a later end never lowers the price |
| `Billing.CreditsSplit` | internal/billing/flavor.go:92-103 | splitting a run never lowers the total and raises it by at most one multiplier |
| `Billing.BilledExactly` | internal/billing/flavor.go:92-103 | minutes are the least number that covers the run, and credits the quarter hours begun times the multiplier |
| `Billing.AllowedExactly` | internal/billing/flavor.go:52-90 | the standard flavor is always allowed, and the larger one if and only if the plan's code, trimmed and in lower case, is plus, pro, max or enterprise |
| `Billing.AllowedFlavors` | internal/billing/flavor.go:72-81 | the loop lists the standard flavor, and the larger one exactly for those codes |
| `Store.BillingStore.AdmitRun` | internal/billing/reservation.go:37-96 | admission writes exactly the account, reservation and meter rows of its transaction, and returns its errors |
| `Store.BillingStore.FinalizeRun` | internal/billing/reservation.go:127-210 | finalization writes exactly the rows of its transaction, guards included |
| `Store.BillingStore.GrantTopupCredits` | internal/billing/store.go:181-199 | a grant opens the account if needed and adds the credits; a grant of nothing changes nothing |
| `Store.BillingStore.GrantTopupCreditsOnce` | internal/billing/store.go:201-253 | the event table decides: the second grant under one event id changes nothing and reports that it did not process it |
| `Store.BillingStore.SetBillingExempt` | internal/billing/store.go:102-114 | the exemption flag alone changes |
| `Store.BillingStore.EnsureTopupSettings` | internal/billing/store.go:275-293 | the settings row exists afterwards and its counters belong to the current month |
| `Store.BillingStore.PrepareAutoTopupAttempt` | internal/billing/topup.go:79-125 | the prepare transaction as one step: decision, goal, price and idempotency key |
| `Store.BillingStore.CompleteAutoTopupAttempt` | internal/billing/topup.go:127-155 | the complete transaction as one step: record the invoice, and only the first time grant and count the unit |
| `Store.BillingStore.AutoTopupRound` | internal/billing/topup.go:44-76 | one turn of the loop: prepare, purchase, complete, with every way to leave the loop |
| `Store.BillingStore.AutoTopup` | internal/billing/topup.go:37-77 | the loop leaves the tables, the answer and the number of purchases that its rounds leave, each round reading the month anew when it prepares and when it completes |
| `Store.BillingService.AdmitRun` | internal/billing/service.go:73-135 | admission by the service: exemption, plan cap, reserve, top-up, and the second balance check in the store |
| `Ledger.CaptureDeltasBalance` | internal/billing/reservation.go:212-223 | captured minus extra plus released is what was reserved, and top-up credits come back in full before any included credit |
| `Ledger.AdmitDecides` | internal/billing/reservation.go:37-96 | admission succeeds exactly for an exempt account or a sufficient balance, spends included credits first, and is idempotent on the balances |
| `Ledger.FinalizeCharges` | internal/billing/reservation.go:140-199 | the charge is the metered price capped by the reservation; meter and reservation record the same amount and the rest is released |
| `RunRecords.AdmitRecords` | internal/billing/reservation.go:37-113 | the rows of a first admission, column by column: reservation, balances and meter, comped or paid |
| `RunRecords.FinalizeRecords` | internal/billing/reservation.go:127-210 | the rows of a finalization in every branch: the given state or unknown, minutes rounded up, the metered price or the charge, and which rows stay |
| `RunRecords.ExemptAndBack` | internal/billing/store.go:102-114 | setting the exemption and setting it back leaves nothing behind but an opened account |
| `RunRecords.GrantExactly` | internal/billing/store.go:201-253 | when a grant counts, what it answers, and what it writes, for new, repeated and missing events |
| `RunRecords.MirrorSettles` | internal/billing/store.go:66-100 | a repeated account mirror changes nothing; none lifts an exemption or takes top-up credits; blank texts stand for the free plan |
| `Ledger.RestartedRunPrice` | internal/billing/reservation.go:37-199 | a run started again is charged from its first start, at its last flavor, within its first reservation |
| `Ledger.FinalizedOnce` | internal/billing/reservation.go:127-138 | a second finalization changes nothing, whatever state and time it brings |
| `Ledger.GrantedOnce` | internal/billing/store.go:226-253 | a second grant under one event id changes nothing, whatever it asks for |
| `Ledger.StepSafe` | internal/billing/reservation.go:37-210 | every transaction, account mirrors included, keeps accounts and reservations in range |
| `Ledger.RunSafe` | internal/billing/reservation.go:37-210 | no sequence of transactions overdraws an account: 0 <= used <= included and top-up >= 0 throughout |
| `Ledger.FinalizeConserves` | internal/billing/reservation.go:127-199 | a finalization keeps balance plus held plus captured of every organization if and only if the clamp of the captured-balances update does not bite |
| `Ledger.AdmitConserves` | internal/billing/reservation.go:37-96 | what an admission takes from the balance its reservation holds, for every organization |
| `Ledger.StepConserves` | internal/billing/reservation.go:37-210 | one transaction moves an organization's worth by its inflow and nothing else |
| `Ledger.BackedNeverClamps` | db/queries/billing.sql:169-179 | when used credits cover the open reservations and none is empty, the clamp never bites |
| `Ledger.BackedChargesNoExtra` | internal/billing/reservation.go:171-186 | and then a capture charges nothing beyond its reservation |
| `Ledger.CaptureEffect` | internal/billing/reservation.go:171-199 | a capture closes its reservation, gives back no more used credits than it held, and loses exactly what the clamp cuts off |
| `Ledger.StepBacked` | internal/billing/reservation.go:37-210 | used credits stay at least the included credits that open reservations hold |
| `Ledger.RunConserves` | internal/billing/reservation.go:37-210 | conservation over every run that reserves at least one credit per paying run: balance, open reservations and captured credits together grow by exactly the grants, and at the end, as at every point, no captured amount of a paying run exceeds its reservation |
| `Ledger.WorthIsWhatCameIn` | internal/billing/reservation.go:37-210 | from empty tables an organization's worth is always exactly what was granted to it |
| `Ledger.ZeroReserveBreaksConservation` | internal/billing/reservation.go:171-186 | with nothing reserved on a paying account the charge has no cap, and on every spent account the clamp swallows it |
| `Ledger.MirrorMovesWorth` | db/queries/billing.sql:39-79 | an account mirror, a change of plan or a new account included, moves the worth by the allowance left afterwards less the one left before, with the exact condition for no change |
| `Ledger.TouchesAtMostTwice` | internal/billing/reservation.go:38-170 | from any tables, a run changes a balance at most once by admission and once by capture, and never again once comped or captured |
| `Admissions.RefusedExactly` | internal/billing/service.go:73-135 | every refusal and its cause: missing ids; the larger flavor on a plan whose code does not name it; otherwise a short balance and the answer of the top-up |
| `Admissions.ReserveExactly` | internal/billing/service.go:102 | the reserve is the plan's limit for one run and at least the price of a quarter hour |
| `Admissions.EnoughBuysNothing` | internal/billing/service.go:102-108 | a balance that covers the reserve never calls the purchaser or reads the clock |
| `Admissions.ReportsExactly` | internal/billing/service.go:73-119 | what an admission reports is what the store holds afterwards |
| `Admissions.FirstRun` | internal/billing/service.go:73-119 | the first run of a new organization, from admission to finalization: 25 credits, 4 held, one paid for each quarter hour begun up to 4, and no larger flavor |
| `Admissions.ExemptRun` | internal/billing/service.go:87-98 | on an exempt account any run is admitted and finalized without touching a balance |
| `TopupDecisions.PrepareExactly` | internal/billing/topup.go:79-125 | by the stored row: a prepare step makes the row current, forgetting last month's counters, and buys the month's next unit if and only if it is enabled, triggered or at the threshold, below its goal, and one more unit fits the cap on this month's spend |
| `TopupDecisions.NewMonthBuysExactly` | internal/billing/store.go:275-293 | in a new month it buys if and only if there is no cap or one unit fits it, whatever was spent before |
| `TopupDecisions.CompleteExactly` | internal/billing/topup.go:127-202 | a completion under a recorded id moves nothing, and any other grants 100 credits and counts a unit and its price in this month |
| `TopupDecisions.RecordedUnder` | internal/billing/topup.go:60-70 | a paid attempt is recorded under the provider's invoice, or under its key when there is none |
| `TopupDecisions.RoundExactly` | internal/billing/topup.go:44-76 | the ways out of a round and their causes, and what each leaves |
| `TopupDecisions.UnitPrices` | internal/billing/plans.go:18-54 | the price of a unit falls with the plan, and a plan without a price of its own pays the default one |
| `TopupDecisions.KeyTextTells` | internal/billing/topup.go:157-160 | the text of an idempotency key tells organization, plan, month, unit and price apart, as long as no plan and no month holds a bar |
| `TopupDecisions.KeysTell` | internal/billing/topup.go:157-160 | so do the keys, with a hash that keeps the two texts apart |
| `TopupDecisions.BarInPlanCollides` | internal/billing/topup.go:157-160 | with a bar in a plan's code two organizations would share a key |
| `TopupProofs.AutoTopupCovers` | internal/billing/topup.go:44-76 | success means the stored account covers the reserve |
| `TopupProofs.CompleteProgress` | internal/billing/topup.go:127-178 | a paid attempt makes progress exactly when its id is new: balance, units, spend and events move together, or only the settings row is made current |
| `TopupProofs.RoundProgress` | internal/billing/topup.go:44-118 | unless the loop spins, each round within one month that goes on leaves exactly one unit less to buy |
| `TopupProofs.AutoTopupTerminates` | internal/billing/topup.go:44-118 | within one month, a loop that does not spin ends within one purchase for each missing unit |
| `TopupProofs.NewIdsEnd` | internal/billing/topup.go:44-118 | new and different ids for the missing units of the month, and for no others, are enough for that |
| `TopupProofs.NeverEndsExactly` | internal/billing/topup.go:44-178 | within one month the loop never ends if and only if, after fewer purchases than units are missing, all paid, within the cap and under new ids, one more comes under an id recorded by then |
| `TopupProofs.EndsInTimeOrNever` | internal/billing/topup.go:44-178 | within one month and without any hypothesis on ids: a loop that has not ended after one round for each missing unit does not end in that month |
| `TopupProofs.AutoTopupStalls` | internal/billing/topup.go:44-76 | with an id that is already recorded the loop buys in every round of the month, changes no account, and ends in none |
| `TopupProofs.NewMonthGoesForward` | internal/billing/store.go:275-293 | a new month frees such a loop: its first unit has a new key, and when that is paid under a new id the round grants 100 credits and ends the loop if they reach the goal |
| `TopupProofs.AnyClockCounts` | internal/billing/topup.go:44-178 | over any months, whatever each step reads off the clock: a loop that used up its rounds has bought one missing unit in every round that was not stuck on a recorded id |
| `TopupProofs.AnyClockEnds` | internal/billing/topup.go:44-178 | so over any months the loop ends once it has had a round for each missing unit beside its stuck ones |
| `TopupProofs.WebhookFirstStalls` | internal/bot/stripe_webhook.go:154-184 | when the provider's invoice webhook grants between the payment and its completion, the completion counts no unit, and the loop ends if the credits reach its goal and otherwise not in that month |
| `TopupProofs.ServiceAdmitIsARun` | internal/billing/service.go:73-119 | an admission by the service is a run of ledger transactions that reserve at least one credit from every paying account |
| `TopupProofs.FundedAdmission` | internal/billing/service.go:87-119 | when the loop succeeds the store cannot turn the run away: refusals are by plan or by the loop only, and a refused run leaves no reservation |
| `TopupProofs.TopupKeeps` | internal/billing/topup.go:37-77 | the loop leaves reservations and exemption alone and never fails on a missing row or a check |
| `TopupProtocol.CompleteInv` | internal/billing/topup.go:127-202 | completing counts a unit exactly when its id is new, and then no other recorded unit has that id |
| `TopupProtocol.NextInv` | internal/billing/topup.go:37-202 | every step of every loop and every other transaction keeps the invariant, and pays 100 credits for each unit it counts |
| `TopupProtocol.ConcurrentTopupsAreSafe` | internal/billing/topup.go:37-202 | for every interleaving in one month: counted units are the recorded purchases, each id once; credits are 100 a unit; spend is the price a unit; a cap that held still holds |
| `TopupProtocol.RoomExactly` | internal/billing/topup.go:79-155 | one action keeps the spend within the cap if and only if it has room: a completion that counts must fit the cap of the month it completes in, and a new cap must cover what is spent |
| `TopupProtocol.CapHoldsExactly` | internal/billing/topup.go:79-202 | over any months, plans, caps, account mirrors and interleavings, the cap holds throughout a run if and only if every action has room |
| `TopupProtocol.CapHoldsOverMonths` | internal/billing/store.go:275-317 | over any number of months and for every interleaving every action has room, and the cap holds, when attempts are completed in the month they were prepared and the plan and the cap do not change while an attempt of the month is in flight |
| `TopupProtocol.CapBreaksAcrossMonths` | internal/billing/topup.go:79-155 | otherwise it can break, on every plan: a run of two loops, both within a cap of one unit when prepared in two months, ends with two units spent in one |
| `TopupProtocol.CapBreaksAcrossPlans` | internal/billing/topup.go:79-155 | and so it can within one month when a mirror changes the plan between two prepare steps: both loops were within a cap of one unit, and both units are spent |
| `TopupMonths.MonthIsTallied` | internal/billing/store.go:275-293 | over any run whose clock does not go back, the counters of the last month are what the row held for it and one unit, at its price, for each purchase first recorded in that month |
| `TopupMonths.NewMonthHoldsItsOwn` | internal/billing/store.go:275-293 | where the cap holds, a month that began during the run holds exactly what was counted in it, within its cap |
| `FramedLog.FrameRouter.Line` | internal/bot/agent_run_logs.go:44-69 | one line of the live router: frame flags, cursor, and the calls it makes, the cursor reported after it has moved past the line |
| `FramedLog.RouterMarks` | internal/bot/agent_run_logs.go:44-79 | the router reports its cursor once for each line, and each time the sum of the sanitized lengths and newlines up to and including that line |
| `FramedLog.SanitizeExactly` | internal/bot/agent_run_logs.go:179-183 | exactly the control bytes in front of a line go, tabs excepted |
| `FramedLog.ReplayTurn` | internal/bot/agent_run_logs.go:122-171 | one turn of the replay loop: frame flags, cursor, the line with its suppression, and the gate as set for the last line shown |
| `FramedLog.ReplayFramedLog` | internal/bot/agent_run_logs.go:113-177 | the replay loop is replaying the text line by line from the given cursor and state, and leaves the gate open |
| `FramedLog.ReplayMarks` | internal/bot/agent_run_logs.go:132-170 | the replay reports the end in the log of each sentinel and each line in a frame, and of no other line |
| `FramedLog.ReplayComposes` | internal/bot/agent_run_logs.go:113-177 | when the first chunk holds whole lines, replaying both at once is replaying the second from what the first returned |
| `FramedLog.SplitLineExactly` | internal/bot/agent_run_logs.go:113-177 | one line read in two pieces is replayed as if whole if and only if the cut leaves no trace: outside a frame, no sentinel in the first piece, one in the second just when the whole is one, and the frames meet again |
| `FramedLog.HealsExactly` | internal/bot/agent_run_logs.go:113-177 | two replays in different frames agree in the end if and only if the text in between heals the difference |
| `FramedLog.ComposesExactly` | internal/bot/agent_run_logs.go:113-177 | two chunks of any bytes are replayed as one if and only if the cut is at a line's end or leaves no trace |
| `FramedLog.PollsReplayExactly` | internal/bot/agent_run_recovery.go:219-243 | for polls of any bytes: what is shown after every poll is one replay of the log so far if and only if every cut may be made |
| `FramedLog.PollsReplayOnce` | internal/bot/agent_run_recovery.go:219-243 | in particular, polling a log that grows by whole lines is replaying it once |
| `FramedLog.CutLineShownTwice` | internal/bot/agent_run_logs.go:122-133 | a chunk cut inside a line is shown as two lines |
| `FramedLog.RouterRefinesReplay` | internal/bot/agent_run_logs.go:44-69 | router and replay agree on lines and flags; the router's cursor never passes the replay's and meets it exactly when nothing was removed |
| `FramedLog.LiveThenRecover` | internal/bot/agent_run_logs.go:44-177 | after a crash the replay with the last cursor that the router reported delivers every later line, and again only a suffix of the live ones: none if and only if the cursor passed the start of the last line shown, as it has whenever no control byte was removed |
| `FramedLog.ResumeSkipsUndelivered` | internal/bot/agent_run_recovery.go:121-165 | a log without a begin line is replayed twice, and the first pass raises the saved cursor to its end: the second delivers only what the log grew by since, and loses the lines not delivered live, if and only if there are any |
| `FrameRoundTrip.ExitCodeRoundTrip` | internal/bot/agent_run_logs.go:81-92 | a printed status is read back |
| `FrameRoundTrip.SignedStatusReads` | internal/bot/agent_run_logs.go:81-92 | a signed status is read if and only if it fits 64 bits |
| `FrameRoundTrip.RouterRoundTrip` | internal/bot/agent_run_logs.go:17-69 | the live router shows of any mixture of frames exactly this run's bodies |
| `FrameRoundTrip.FrameRoundTrips` | internal/bot/agent_run_logs.go:17-177 | the replay of any frames of any runs and stray lines shows exactly this run's sanitized bodies, with begin, end and the printed status |
| `FrameRoundTrip.UnterminatedBodyLosesEnd` | internal/bot/agent_run_logs.go:17-26 | of a body without a final newline the end is seen if and only if the last piece glued to the end line, control bytes in front removed, starts like an end line; otherwise it is shown as output and the run stays in its frame |
| `FrameRoundTrip.GarbledStatusReadsAsZero` | internal/bot/agent_run_logs.go:57-61 | a status that does not parse ends the frame with status zero |
| `Jsonc.StripComments` | internal/bootstrap/detect.go:194-241 | the comment pass, loop for loop, computes the pass on the rest of the input |
| `Jsonc.StripTrailingCommas` | internal/bootstrap/detect.go:243-277 | the comma pass, loop for loop |
| `Jsonc.StripJsonc` | internal/bootstrap/detect.go:190-192 | comments first, then commas |
| `Jsonc.CommaExactly` | internal/bootstrap/detect.go:264-272 | outside a string a comma goes if and only if the next character that is no JSON white space closes a container, and what stands between stays |
| `Jsonc.CodeIdempotent` | internal/bootstrap/detect.go:194-241 | on every text, a second comment pass changes nothing |
| `Jsonc.CodeKeepsLiterals` | internal/bootstrap/detect.go:194-241 | every string literal is copied unchanged and in order |
| `Jsonc.CodeKeepsNewlines` | internal/bootstrap/detect.go:224-235 | every newline is kept, except the last one of a text that ends inside a block comment |
| `Jsonc.StripIdentity` | internal/bootstrap/detect.go:190-277 | a text is left alone if and only if it has no comment and no trailing comma |
| `JsoncMeaning.LexCode` | internal/bootstrap/detect.go:194-241 | reading a text without its comments gives the tokens read around them, unless two atoms stand in a row |
| `JsoncMeaning.LexCommas` | internal/bootstrap/detect.go:243-277 | on every text the comma pass removes exactly the comma tokens in front of a closing bracket |
| `JsoncMeaning.TrailingReads` | internal/bootstrap/detect.go:264-272 | the scan for trailing commas finds exactly those of the tokens |
| `JsoncMeaning.CommasAgainExactly` | internal/bootstrap/detect.go:243-277 | a second comma pass changes nothing if and only if no two commas in a row stand in front of a closing bracket |
| `JsoncMeaning.DoubleCommaWitness` | internal/bootstrap/detect.go:243-277 | `[,,]` is a text on which it does not |
| `JsoncMeaning.StripKeepsValue` | internal/bootstrap/detect.go:190-277 | a text that reads as a JSON value with comments and trailing commas is stripped to one that reads as the plain value |
| `JsoncMeaning.FlattenReads` | internal/bootstrap/detect.go:190-277 | the reader of JSON with comments reads every printing as what was printed |
| `JsoncMeaning.StripPrinted` | internal/bootstrap/detect.go:190-277 | however a value is printed, with any comments and white space between its tokens and a comma after the last entries, stripping keeps its plain tokens |
| `JsoncMeaning.PrintingUnchanged` | internal/bootstrap/detect.go:190-277 | a printing is left as it is if and only if it has no comment and no comma in front of a closing bracket |
| `JsoncMeaning.PlainUnchanged` | internal/bootstrap/detect.go:190-277 | plain JSON, however it is spaced, is left as it is |
| `JsoncMeaning.CommentsMustGoFirst` | internal/bootstrap/detect.go:190-192 | a comma followed by a comment and a bracket goes only because comments go first |
| `EnvExample.DetectEnvExample` | internal/bootstrap/detect.go:414-437 | the line loop reads the entries of the file and keeps the keys beside them |
| `EnvExample.MatchExactly` | internal/bootstrap/detect.go:404 | the entry pattern, character by character |
| `EnvExample.ParseExactly` | internal/bootstrap/detect.go:414-437 | the entries are the entry lines in order, each with the comments since the last blank line or entry |
| `EnvExample.RenderEntries` | internal/bootstrap/prompt.go:392-397 | the printing loop prints every entry with its comment above it |
| `EnvExample.RenderExactly` | internal/bootstrap/prompt.go:392-397 | the text shown for each entry |
| `EnvExample.ParseRender` | internal/bootstrap/prompt.go:392-397 | printed entries are read back as they were |
| `EnvExample.RenderedFileReads` | internal/bootstrap/detect.go:406-439 | for any file, the entries shown in the prompt read back as the file's entries |
| `EnvExample.Readable` | internal/bootstrap/detect.go:404-437 | a list of entries can be read from some file if and only if every entry is well formed |
| `Blocks.Recorder.StartAt` | internal/blocks/recorder.go:53-67 | a started block is appended to the log under the next id |
| `Blocks.Recorder.Append` | internal/blocks/recorder.go:69-75 | a block's body grows, whatever its status; an unknown id changes nothing |
| `Blocks.Recorder.FinishAt` | internal/blocks/recorder.go:91-99 | status, summary and end time of one block change; an unknown id changes nothing |
| `Blocks.Recorder.Snapshot` | internal/blocks/recorder.go:120-137 | the last maxKeep blocks in emit order |
| `Blocks.KeptExactly` | internal/blocks/recorder.go:120-137 | a block is in the snapshot if and only if it is among the last maxKeep, whatever its status |
| `Blocks.InFlightDropped` | internal/blocks/recorder.go:33-37 | so a block still streaming is dropped once maxKeep later ones have started, and not before |
| `Blocks.Tee.Start` | internal/blocks/tee.go:49-61 | every recorder starts the block at one time, and the ids are mapped |
| `Blocks.Tee.Append` | internal/blocks/tee.go:63-75 | every recorder's own block grows; an unknown or closed id changes nothing |
| `Blocks.Tee.Done` | internal/blocks/tee.go:77-91 | every recorder's own block closes and the id is forgotten |
| `Blocks.Tee.Fail` | internal/blocks/tee.go:93-107 | every recorder's own block fails and the id is forgotten |
| `Blocks.Tee.OneShotAt` | internal/blocks/tee.go:137-167 | a closed block at one time in every recorder, and no id kept |
| `BlockHistory.RecorderTells` | internal/blocks/recorder.go:69-99 | after any calls a block's body is what it was and then every text appended under its id, in call order, finished or not; summary, status and end time are those of the last finish; nothing else changes |
| `BlockHistory.RecorderTellsStarted` | internal/blocks/recorder.go:53-99 | the whole story of a block from the call that started it |
| `BlockHistory.TeeTells` | internal/blocks/tee.go:49-167 | through the tee every recorder tells the same story: kind, title, meta and start of the opening call, the texts appended before the close in call order, and summary, status and end of the call that closed it first |
| `TeeMirror.CallMirrors` | internal/blocks/tee.go:49-167 | every call keeps all recorders equal to one transcript under their own numbering |
| `TeeMirror.TeeMirrors` | internal/blocks/tee.go:49-167 | after any calls each recorder holds what it had and then the transcript, and the id map knows exactly the open blocks |
| `TeeMirror.SnapshotsAgree` | internal/blocks/recorder.go:120-137 | recorders that were new when the tee was made have equal snapshots |
| `TeeMirror.TeeBlocksAgree` | internal/blocks/tee.go:43-61 | with older blocks in the recorders, what the tee wrote differs in the ids only |
| `TeeMirror.ClosedStays` | internal/blocks/tee.go:63-107 | a block closed through the tee, or older than it, is never changed by later calls |
| `TeeMirror.BareRecorderReopens` | internal/blocks/recorder.go:69-99 | a recorder by itself lets a closed block grow and be closed again |
| `Limiter.LocalAuthLimiter.Prune` | internal/auth/local_security.go:74-80 | exactly the expired entries go |
| `Limiter.LocalAuthLimiter.Allow` | internal/auth/local_security.go:53-72 | the decision and the new entries of one attempt, pruning included |
| `Limiter.WindowsExactly` | internal/auth/local_security.go:53-72 | the decisions on a key are those of its fixed windows: the first 20 attempts of each, whatever other keys do and whatever is pruned |
| `Limiter.PruningChangesNothing` | internal/auth/local_security.go:60-62 | with a clock that does not run backwards, no pruning policy changes any decision |
| `Limiter.AtMostTwiceTheLimit` | internal/auth/local_security.go:63-71 | any half-open interval as long as the window admits at most twice the limit less one, for every key |
| `Limiter.BoundIsReached` | internal/auth/local_security.go:63-71 | that bound is reached |
| `Catalog.BuildSlug` | internal/agents/agents.go:344-364 | the loop over the runes computes the slug |
| `Catalog.NormalizeSlugIsSlug` | internal/agents/agents.go:344-364 | every result is a slug, the slugs are exactly the fixed points, and normalizing is idempotent |
| `Catalog.SlugIsWords` | internal/agents/agents.go:344-364 | a slug is the request's words in lower case, broken at dashes, underscores and white space, with single dashes between them |
| `Catalog.MentionIsName` | internal/agents/agents.go:366-371 | a name is found in a mention of it in any case, with white space in front, an at sign, and punctuation around it |
| `Catalog.LookupIdempotentExactly` | internal/agents/agents.go:366-371 | a second normalization changes nothing if and only if the result starts with no at sign and has no white space at its ends |
| `Catalog.AddCatalogLookup` | internal/agents/catalog.go:97-106 | a name is taken up unless it is empty or taken |
| `Catalog.CatalogIndexes.EnsureIndexes` | internal/agents/catalog.go:75-95 | the slug index finds the last entry with a slug, the name index the first with a name, and entries without a slug are in neither |
| `Catalog.CatalogIndexes.GetCatalogEntry` | internal/agents/catalog.go:45-53 | the lookup is the linear search for the last entry with the normalized slug |
| `Catalog.CatalogIndexes.FindCatalogProfile` | internal/agents/catalog.go:63-73 | the lookup is the linear search for the first entry with the normalized name |
| `Catalog.SearchFindsFirstMatch` | internal/agents/agents.go:328-342 | that search finds the first entry with a slug whose profile matches the request, if any does |
| `Catalog.CatalogNames` | internal/agents/catalog.go:108-116 | a catalog entry answers to its slug and its display name only |
| `Catalog.SharedSlug` | internal/agents/catalog.go:45-73 | with one slug on two entries, the slug lookup answers with the last and the name lookup with the first |
| `Catalog.MatchesAgreeExactly` | internal/agents/agents.go:112-133 | normalizing the request twice before matching is harmless on every profile if and only if the second time changes nothing |
| `Catalog.DoubleAt` | internal/agents/agents.go:112-133 | with two at signs an organization's profile is found where the same catalog entry is not |

## Left out

- Wall clock, randomness, SHA-256, the payment provider and the network: the clock and the month are arguments, the purchase and the hash are arbitrary functions, and a purchase that fails can fail at any time.
- Row locks and deadlock: each transaction is one atomic step; the lock orders of admission and finalization differ and nothing is claimed about them.
- Database widths and columns without effect on credits: `int32` casts, Stripe ids, pending plan changes, timestamps, sandbox sizes and `last_payment_error`; the row of a repository's flavor is replaced by the flavor itself.
- `Enabled()` checks and zero-time defaults: they return early or fill in the clock.
- Settings validation, overview pages, API handlers, the CLI and templates: they would only add easy members.
- AutoTopup: the source's loop has no bound; the model gives it a clock with two readings of the month for each round, and `AnyClockCounts`, `AnyClockEnds`, `AutoTopupCovers` and `TopupKeeps` hold for every clock; the theorems within one month are for clocks that stay in it.
- ServiceAdmitIsARun: nothing else runs between the service's store calls; what an exemption that ends in between leads to is ZeroReserveBreaksConservation.
- ConcurrentTopupsAreSafe: one month, one plan and one cap, and loops of one organization, with every other transaction of all organizations in between. An attempt completed in a later month than it was prepared, and a change of the plan while an attempt is in flight, are excluded here and in CapHoldsOverMonths, because the cap can then break, as CapBreaksAcrossMonths and CapBreaksAcrossPlans show; CapHoldsExactly includes them.
- TopupProtocol.Next: the statements of a settings update are one atomic step.
- RunConserves: account mirrors are excluded, because a new period forgets used credits, as MirrorMovesWorth shows; RunSafe includes them.
- FrameRoundTrips: shell quoting and the `printf` of the framing command are not modelled, only the lines they print; text is a sequence of characters, one for each byte.
- FramedLog.Poll: the reset of cursor and frame when a later snapshot is shorter than the last, and errors of the emitter in between.
- StripPrinted: numbers and the names `true`, `false` and `null` are any text without white space, brackets, commas, colons, quotes and slashes, which allows more than JSON does.
- EnvExample.DetectEnvExample: the choice among the three file names and reading the file; the section heading around the printed entries.
- Blocks.Tee: recorders are the only emitters, two or more and all different; `Heartbeat`, JSON encoding, mutexes, and the sharing of a block's `meta` map between snapshots.
- Limiter: the derivation of the key from the request; the limit, the window and the size are the source's constants.
- Catalog: the Unicode tables themselves; of letters, digits and lower case the model knows what `AlphabetOk` says, and nothing else.
- Billing.ParseFlavor: lower case of the ASCII letters only.
- FindCatalogProfile: descriptions, prompts, skills and the other profile fields that lookups do not read.
