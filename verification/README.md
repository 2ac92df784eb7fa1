# Verification of the enclave subnet

A Dafny model of the mechanism in `src/enclave`: how a round's records become weights, how an episode
is metered, how an archive world is generated and audited, and how a validator keeps its ledger, its
directive and its lock. `dafny verify dfyconfig.toml` checks everything.

## What is modelled

- `Decay`, `Apportionment`, `Ranking`, `AllocationLaws`, `Publication`, `PublicationLaws`: from scores to
  the integer weight vector a chain accepts. The bisection, the tie loop and the repeated
  largest-remainder rounding are proved exact, fair and conserving for true quotas; for computed ones
  close by, the total stays exact, the vector valid, and every entry within one ppm and the error of its
  quota.
- `Records`, `YieldScore`, `ScoringLaws`, `Settlement`: the fold of records into a yield, monotone
  through order statistics and half-even rounding, and the weights that a round's yields earn.
- `Pricing`, `Meter`, `Relay`, `RelayLaws`, `Episode`: one metered session shared by many connections.
  Asking for a completion and billing it are separate steps; results hold for every interleaving, except
  where one connection is said to be alone.
- `Prf`, `Vocabulary`, `Archive`, `ArchiveEnvironment`, `ArchiveLaws`, `ArchiveDraws`, `ArchivePages`:
  the world generator over an arbitrary hash. Two value seeds give worlds that agree in everything but
  values and graded keys; which seed and which draw each part comes from is said on the world itself.
- `Json`, `Ledger`, `LedgerLaws`, `LedgerRuns`: the hash chain, with tamper evidence that hands over a
  collision.
- `Directives`, `Validator`, `ValidatorLaws`: revisions in force across polls and restarts, and the
  score and weight loops interleaved around the lock file.
- `Discovery`, `DiscoveryLaws`: who paid the fee to take part.
- `Numbers`, `Foundations`, `Strings`, `Dicts`, `Wrappers` hold what these share.

Objects that the source updates in place are classes whose methods are proved against functions of
their old and new state; the laws are lemmas about those functions, and the `Laws`, `Draws`, `Pages` and
`Runs` files say what these compute in the caller's terms, without them.

## Where the source and its documentation differ

- `README.md` line 128 says that degrading solves never pays. Losing a solve lowers the unquantised
  yield if and only if what the bill saves, moved ceiling included, is below total over solved
  (`YieldScore.LosingASolve`); quantising can turn either side into a tie, within one quantum
  (`LosingASolveScores`). Below twenty records at the default quantile that is a bound on the one
  charge (`LosingASolveUnlowered`, in numbers `ScoringLaws.GivingUpASolve`). `DegradationCanPay` is a round, under the default parameters,
  where it pays; `CeilingMakesItPay` one where it pays through the ceiling.
- `docs/scoring.md` line 102 says that no identifier decides who is paid. A tie across the last paid
  rank is decided by identifier (`Ranking.IdentifierDecides`), and only such a tie
  (`Ranking.TieAtTheCut`).
- A cap-exhausted error reply does not mean that the cap is spent: a refused quote seals the meter
  below it (`Relay.RefusedExactly`), and such an episode is never recorded as exhausted
  (`Episode.RefusedQuoteIsNotExhaustion`); it can still be solved (`Episode.SolvedAfterRefusal`).
- `Ledger.verify` accepts any prefix of a good chain (`LedgerLaws.PrefixVerifies`), so tampering is
  evident against a known tip only.
- The comments in `daemon.py` promise the revision in force; one that is fetched over before its block
  is skipped (`Directives.SkippedRevision`). A lost cache write can bring an older one back
  (`Directives.LostWriteGoesBack`), and with revisions served in order nothing else can:
  `Directives.GoesBackExactly` says when, and `Directives.BackAfterLostWrite` finds the write.

## Model

| member | source | states |
|---|---|---|
| Decay.SolveDecay | src/enclave/scoring/allocation.py:26-45 | the 400-step bisection loop computes the specified bisection; one rank gives decay 1 |
| Decay.GeometricSum | src/enclave/scoring/allocation.py:33-36 | the closed form divided out in `top_of` is the geometric sum: (1-d)(1+d+...) = 1-d^n |
| Decay.TopOfIsReciprocal | src/enclave/scoring/allocation.py:33-36 | on the whole start interval `top_of` is exactly the first slot of the schedule that decay gives, and its near-one branch is never needed |
| Decay.ScheduleTotal | src/enclave/scoring/allocation.py:48-55 | a non-empty schedule pays out exactly the pool, every slot something |
| Decay.ScheduleDecreasing | src/enclave/scoring/allocation.py:48-55 | with a decay below one an earlier rank gets strictly more |
| Decay.FirstShareGap | src/enclave/scoring/allocation.py:33-44 | the top share falls strictly as the decay grows, and is Lipschitz with constant n(n-1)/2 |
| Decay.BisectKeeps | src/enclave/scoring/allocation.py:38-44 | every halving keeps an interval half as wide whose moved ends are on their own side of the target |
| Decay.DecayNearRoot | src/enclave/scoring/allocation.py:38-45 | for a target met inside the start interval the root is unique and the solved decay is within 2^-(steps+1) of it |
| Decay.DecayAccuracy | src/enclave/scoring/allocation.py:26-55 | for n >= 2 and a bracketed target, slot 0 of the length-n schedule is within n(n-1)/2 * 2^-(steps+1) of the target |
| Decay.DecayAccuracyAnyTarget | src/enclave/scoring/allocation.py:26-55 | for every target the parameters admit, the error is at most n(n-1)/2 * (1e-12 + 2^-(steps+1)), also where the start interval clips it |
| Apportionment.LargestRemainderPpm | src/enclave/scoring/allocation.py:58-77 | largest-remainder apportionment with its error on a non-positive total, including duplicate keys and a negative remainder |
| Apportionment.HandOut | src/enclave/scoring/allocation.py:74-75 | the loop over `range(remainder)` bumps the order in turn, cycling, and not at all for a negative remainder |
| Apportionment.SumOfValues | src/enclave/scoring/allocation.py:71-71 | the sum over the dictionary of floors |
| Apportionment.RoundedTotal | src/enclave/scoring/allocation.py:70-77 | whatever the quotas, the ppm total exactly one million unless the floors alone exceed it |
| Apportionment.RemainderUnderRounding | src/enclave/scoring/allocation.py:62-77 | quotas computed within delta of the true ones, n*delta below one, leave a remainder in [0, n] and total exactly one million |
| Apportionment.ExtraPpm | src/enclave/scoring/allocation.py:70-75 | for exact quotas and computed ones close to them, the first `remainder` entries of the bump order, and only they, get one ppm more than their floor |
| Apportionment.ExtraByFraction | src/enclave/scoring/allocation.py:70-75 | said of the quotas alone: a key gets one ppm above its floor exactly when fewer entries with a larger fraction, or the same fraction and a smaller key, precede it than there are ppm left |
| Apportionment.SmallerKeyFirst | src/enclave/scoring/allocation.py:73-75 | of two equal fractions the smaller key is served first |
| Strings.LexFirstDifference | src/enclave/scoring/allocation.py:73-73 | the smaller of two keys is the one with the smaller character where they first differ, or the one the other extends |
| Apportionment.ExactRemainder | src/enclave/scoring/allocation.py:70-75 | exact quotas leave a remainder below one per entry, the sum of their fractions |
| Apportionment.FairUnderRounding | src/enclave/scoring/allocation.py:58-77 | under computed quotas every entry is within one ppm and delta of its true quota, a larger computed quota never gets fewer ppm, and neither does a true one that leads by more than twice delta |
| Apportionment.QuotaRule | src/enclave/scoring/allocation.py:58-77 | every key gets the floor or the ceiling of its exact quota |
| Apportionment.QuotaMonotone | src/enclave/scoring/allocation.py:58-77 | a larger quota, true or computed, never gets fewer ppm, equal quotas differ by at most one |
| Apportionment.WholeQuotasFixed | src/enclave/scoring/allocation.py:58-77 | quotas that are already whole are left alone |
| Apportionment.WholeSharesFixed | src/enclave/scoring/allocation.py:58-77 | integer shares that already total a million come back as they are |
| Apportionment.RoundedOrderIndependent | src/enclave/scoring/allocation.py:58-77 | the result does not depend on the order of the input |
| Apportionment.LeastDeviation | src/enclave/scoring/allocation.py:58-77 | no integer vector over the same keys with the same total is closer to the quotas in total absolute deviation |
| Apportionment.ProperSharesExact | src/enclave/scoring/allocation.py:58-77 | distinct keys with non-negative shares of positive total are always apportioned, one entry a key, to exactly one million |
| Apportionment.ShareMonotone | src/enclave/scoring/allocation.py:58-77 | a larger share never gets fewer ppm, equal shares differ by at most one |
| Apportionment.ShareFloor | src/enclave/scoring/allocation.py:58-77 | every share of a million gets at least its floor |
| Apportionment.ShareNear | src/enclave/scoring/allocation.py:58-77 | every share gets its part of a million to within one ppm |
| Apportionment.ShareOrderIndependent | src/enclave/scoring/allocation.py:58-77 | rearranging the shares changes nothing, errors included |
| Ranking.ShareTies | src/enclave/scoring/allocation.py:149-160 | the two nested loops give every paid entry the mean of the slots of its maximal run of equal scores |
| Ranking.Allocate | src/enclave/scoring/allocation.py:135-166 | the whole of `allocate`: eligibility, rank order, cut, schedule, tied shares, apportionment |
| Ranking.RunsAreTies | src/enclave/scoring/allocation.py:151-154 | in rank order, being in one run and having equal scores are the same thing: the tie loop partitions the paid ranks into maximal runs |
| Ranking.TiesConserve | src/enclave/scoring/allocation.py:149-160 | up to any run boundary the shares handed out total the schedule slots they came from |
| Ranking.SharesFollowScores | src/enclave/scoring/allocation.py:149-160 | a better paid score earns a strictly larger share, a tie exactly the same |
| Ranking.TiedSharesProper | src/enclave/scoring/allocation.py:147-160 | tied shares of distinct entries are non-negative and total one |
| Ranking.AllocatedTotal | src/enclave/scoring/allocation.py:102-166 | distinct identifiers always allocate, to a million ppm, or to nothing exactly when nobody is eligible |
| Ranking.RankFairness | src/enclave/scoring/allocation.py:135-166 | a strictly higher score never gets fewer ppm, equal paid scores are within one ppm, nobody unpaid outscores anybody paid |
| Ranking.RankFairnessUnderRounding | src/enclave/scoring/allocation.py:135-166 | under computed quotas a better score, whose tied share always leads, gets no fewer ppm once it leads by more than twice delta ppm, and equal scores are less than two ppm and twice delta apart |
| Ranking.AllocatedOrderIndependent | src/enclave/scoring/allocation.py:135-166 | the allocation does not depend on the order in which scores arrive |
| Ranking.PaidExactly | src/enclave/scoring/allocation.py:141-146 | paid is exactly who scored above the minimum and has fewer than `paid_ranks` entries ahead |
| Ranking.TieAtTheCut | src/enclave/scoring/allocation.py:145-146 | the entries of one score are all paid or all unpaid if and only if those above it fill the paid ranks, or it fits within them |
| Ranking.TieInIdentifierOrder | src/enclave/scoring/allocation.py:145-146 | otherwise the first of them by identifier are paid, as many as ranks are left for the tie |
| Ranking.IdentifierDecides | src/enclave/scoring/allocation.py:145-146 | two equal scores and one paid rank: one identifier is paid, the other is not |
| AllocationLaws.ScheduleMeetsTarget | src/enclave/scoring/allocation.py:98-99 | the schedule of an allocation has one positive slot for everybody paid, adds up to one, and keeps one ratio from slot to slot: one for which a schedule over all paid ranks starts within n(n-1)/2 * (1e-12 + 2^-401) of `top_share` |
| AllocationLaws.TopSlotIsTarget | src/enclave/scoring/allocation.py:147-147 | with somebody for every paid rank the first slot is `top_share`, within that tolerance |
| AllocationLaws.PaidTheMean | src/enclave/scoring/allocation.py:149-165 | everybody paid gets, of a million and to within one ppm, the mean of the slots from as many as scored more up to as many as scored no less |
| AllocationLaws.WinnerGetsTheTarget | src/enclave/scoring/allocation.py:135-166 | an untied best score is paid the first slot of a million to within one ppm, and with a full field `top_share` of it |
| Publication.ApplyReservedShare | src/enclave/scoring/allocation.py:169-199 | the reserved share: passed through, refused above one, whole at one or when nothing is earned, otherwise merged and apportioned |
| Publication.Merge | src/enclave/scoring/allocation.py:186-193 | the loop that scales every entry and adds the reserved share to its hotkey |
| Publication.ReservedFloor | src/enclave/scoring/allocation.py:169-199 | after reservation the hotkey holds at least the floor of its share, and the ppm total a million |
| PublicationLaws.ReservedScales | src/enclave/scoring/allocation.py:186-199 | for a share between zero and one: the keys are those there were and the hotkey, everybody holds what is kept of its ppm and the hotkey the share on top, each to within one ppm, and schedule and ranking stay |
| PublicationLaws.ReservedKeepsOrder | src/enclave/scoring/allocation.py:186-199 | whoever earned more never ends with fewer, the hotkey that got the share on top aside |
| PublicationLaws.ReservedOtherwise | src/enclave/scoring/allocation.py:174-184 | no hotkey or no share changes nothing, a share above one is an error, and a share of one or nothing earned gives the hotkey the whole million |
| Publication.AsUidPpm | src/enclave/scoring/allocation.py:119-132 | placement on uids: unplaced entries dropped, the rest apportioned again and added on their uids |
| Publication.Place | src/enclave/scoring/allocation.py:121-125 | the loop that keeps exactly the entries with a uid in range |
| Publication.Land | src/enclave/scoring/allocation.py:130-131 | the loop that adds each entry's ppm to its uid's slot, also when uids are shared |
| Publication.VectorTotal | src/enclave/scoring/allocation.py:130-132 | every entry lands on exactly one uid, so the vector totals what was placed |
| PublicationLaws.VectorCarries | src/enclave/scoring/allocation.py:119-132 | with any ppm placed, a million is divided anew among the placed by what they hold, each to within one ppm, and every uid carries exactly the ppm of the identifiers that hold it |
| Publication.PlacedKeeps | src/enclave/scoring/allocation.py:119-132 | dropping entries without a uid never takes ppm from one that is placed |
| Publication.AsUidTotal | src/enclave/scoring/allocation.py:119-132 | the vector is all zeros when nobody is placed and otherwise totals a million |
| Publication.AsUidFails | src/enclave/scoring/allocation.py:119-132 | placement fails exactly when someone is placed and nobody placed holds any ppm |
| Publication.ReservedNeverDiluted | src/enclave/scoring/allocation.py:119-199 | a reserved hotkey with a uid in range ends with at least the floor of its share of a million, whoever else holds a uid |
| Publication.UidMap | src/enclave/validator/round.py:207-209 | positions first, then each neuron's own uid |
| PublicationLaws.UidOfLast | src/enclave/validator/round.py:207-209 | a hotkey's uid is that of the last neuron with it |
| PublicationLaws.UidOfNobody | src/enclave/validator/round.py:207-209 | and a hotkey without a neuron has none |
| Publication.Publish | src/enclave/validator/round.py:201-216 | either nobody holds a positive weight and the chain is not called, or exactly one vector goes out and the chain accepts it |
| Publication.PublishedUnderRounding | src/enclave/validator/round.py:201-216 | with anything placed, whatever rounding makes of the second apportionment's quotas within n*delta below one, the vector totals a million and the chain accepts it |
| Publication.PublishedValid | src/enclave/chain/client.py:52-63 | the positive entries of a placed vector always pass the chain's validation, unless there are none |
| PublicationLaws.PublishedAscends | src/enclave/validator/round.py:211-215 | what goes out names the uids that hold anything, ascending, each with what it holds |
| PublicationLaws.AcceptedExactly | src/enclave/chain/client.py:52-63 | the chain takes a vector exactly when it has one weight a uid, none negative, a million in all |
| Publication.OfflineChain.SetWeights | src/enclave/chain/client.py:82-84 | a vector is recorded exactly when it passes validation |
| YieldScore.Winsorize | src/enclave/scoring/yield_score.py:63-69 | every value becomes its minimum with one ceiling, in place |
| YieldScore.WinsorizeMonotone | src/enclave/scoring/yield_score.py:63-69 | winsorising is monotone in every value |
| YieldScore.WinsorizeIdempotent | src/enclave/scoring/yield_score.py:63-69 | winsorising twice is winsorising once |
| YieldScore.WinsorizeFew | src/enclave/scoring/yield_score.py:63-69 | at least ceil(q n) values stay as they are |
| YieldScore.CeilingOrderIndependent | src/enclave/scoring/yield_score.py:66-68 | the ceiling is an order statistic: it does not depend on the order of the values |
| YieldScore.Scoreable | src/enclave/scoring/yield_score.py:100-101 | exactly the records whose verdict is a decision |
| YieldScore.FirstFailedAudit | src/enclave/scoring/yield_score.py:115-117 | a failed audit is found whenever there is one |
| YieldScore.BillBounds | src/enclave/scoring/yield_score.py:55-60 | the bill of n records lies between n floors and n times cap plus penalty, winsorised or not |
| YieldScore.YieldBound | src/enclave/scoring/yield_score.py:130-153 | a passing yield is at most the solve rate over the floor, up to half a yield quantum |
| YieldScore.YieldMonotone | src/enclave/scoring/yield_score.py:92-153 | replacing records by ones solved at least as often, spending no more and auditing no worse never lowers the yield |
| YieldScore.ScoreOrderIndependent | src/enclave/scoring/yield_score.py:92-153 | only the void reason may depend on the order of the records |
| YieldScore.VoidReasonFollowsOrder | src/enclave/scoring/yield_score.py:115-128 | of two failed audits the void reason names the first |
| YieldScore.SavedIs | src/enclave/scoring/yield_score.py:55-69 | what a swapped charge takes off the bill, spelled out: the swap, each charge under its own round's ceiling, and what the moved ceiling takes off every other charge |
| YieldScore.LosingASolve | src/enclave/scoring/yield_score.py:55-69 | for every admitted quantile, replacing a solve by a failure lowers solved/total if and only if what the bill saves is below total/solved |
| YieldScore.LosingASolveScores | src/enclave/scoring/yield_score.py:92-153 | so the quantised yield of the whole round cannot rise while the bill saves less than total/solved, cannot fall once it saves that much, and does fall or rise when the unquantised yields are more than a quantum apart |
| YieldScore.LosingASolveUnlowered | src/enclave/scoring/yield_score.py:55-69 | where winsorising lowers nothing, the condition is that the solve's charge is below the failure's plus total/solved |
| YieldScore.AllStayBelowTwenty | src/enclave/scoring/yield_score.py:63-69 | at the default quantile that is exactly below twenty records |
| YieldScore.CeilingMakesItPay | src/enclave/scoring/yield_score.py:63-153 | where it lowers something the one charge does not decide: below that bound, and still the yield rises when the solve is dropped |
| YieldScore.DegradationCanPay | src/enclave/scoring/yield_score.py:92-153 | a round under the default parameters whose yield rises when its dear solve is dropped |
| ScoringLaws.SolvedCharge | src/enclave/scoring/yield_score.py:55-57 | a solved record is charged its spend, the floor below the floor and the cap above the cap |
| ScoringLaws.FailureCharge | src/enclave/scoring/yield_score.py:58-60 | a record of the same spend that was not solved is charged exactly the failure penalty more |
| ScoringLaws.RoundExactly | src/enclave/scoring/yield_score.py:92-153 | no decision exactly when every outcome is one of the four faults, void exactly when a record that counts failed its audit, otherwise solves over charges to within half a quantum, each charge under a ceiling with fewer than q n charges below and at least q n not above it |
| ScoringLaws.GivingUpASolve | src/enclave/scoring/yield_score.py:55-69 | where winsorising lowers nothing, giving up a solve charged c for a failure that spends at most the floor lowers solved/total if and only if c is below floor + penalty + total/solved |
| Settlement.ScoreSubmissions | src/enclave/validator/round.py:173-186 | every given submission, or every one with a record when none is given, is scored from its own records, in ascending order |
| Settlement.Settle | src/enclave/validator/round.py:189-198 | the passing submissions, by identifier, with their yields, allocated |
| Settlement.RankedExactly | src/enclave/validator/round.py:193-197 | ranked are exactly the submissions that passed, each with the yield of its own records |
| Settlement.OwnRecords | src/enclave/validator/round.py:173-186 | a submission's own records are those filed under it, each as often as it was filed |
| Settlement.ScoredExactly | src/enclave/validator/round.py:173-186 | one score for each submission named, or for each with a record when none is, ascending, each folded from its own records |
| Settlement.SettledTotal | src/enclave/validator/round.py:173-198 | settling a round never fails and pays out a million ppm or nothing |
| Settlement.VoidEarnsNothing | src/enclave/validator/round.py:193-197 | a submission that did not pass earns nothing |
| Settlement.FailedAuditEarnsNothing | src/enclave/validator/round.py:173-198 | one failed audit among a submission's scoreable records and it earns nothing for the round |
| Settlement.WeightsFollowYields | src/enclave/validator/round.py:173-198 | the higher yield gets no fewer ppm, equal paid yields the same up to one ppm, nobody unpaid has the higher yield |
| Settlement.SettledOrderIndependent | src/enclave/validator/round.py:173-198 | the weights depend on the records of a round, not on the order they were appended in |
| Settlement.RoundPublishes | src/enclave/validator/daemon.py:450-473 | from any records: settling, reserving for a hotkey in range and placing never fail once the share's floor is one ppm, and the vector is one the chain accepts, with at least that floor on the hotkey's uid |
| Settlement.PublishRound | src/enclave/validator/daemon.py:450-473 | such a pass sends exactly one vector to the chain |
| Pricing.Lookup | src/enclave/relay/pricing.py:107-111 | finds the entry of a priced model, and fails exactly when no entry has the name |
| Pricing.PriceMonotone | src/enclave/relay/pricing.py:69-75 | the rounded price grows with either token count and is never negative |
| Pricing.SplitCall | src/enclave/relay/pricing.py:69-75 | splitting a call in two changes what it is billed by at most one quantum |
| Pricing.OfferedIsSelectable | src/enclave/relay/pricing.py:99-105 | the sorted list of offered models has exactly the priced models but the observation channel |
| Pricing.PriceNear | src/enclave/relay/pricing.py:69-75 | rounding moves a price by at most half a quantum |
| Numbers.HalfEvenTie | src/enclave/relay/pricing.py:75-75 | a price half way between two quanta goes to the even one |
| Metering.Meter.constructor | src/enclave/relay/meter.py:55-65 | a fresh meter has spent nothing, logged nothing and is open |
| Metering.Meter.Seal | src/enclave/relay/meter.py:73-74 | sealing changes nothing else |
| Metering.Meter.Remaining | src/enclave/relay/meter.py:57-59 | what is left of the cap, never below zero |
| Metering.Meter.Affordable | src/enclave/relay/meter.py:76-80 | a quote is affordable when it is within what remains, and an error when it cannot be made |
| Metering.Meter.Charge | src/enclave/relay/meter.py:97-118 | one charge: refused on a sealed meter or negative counts, otherwise logged and added, sealing at the cap |
| Metering.ChargeKeepsExact | src/enclave/relay/meter.py:97-118 | each charge keeps: spent is the sum of the logged prices, an open meter is under its cap, before the last call the meter was under its cap |
| Metering.TotalNear | src/enclave/relay/meter.py:97-118 | the bill differs from the unrounded one by at most half a quantum a call |
| Metering.BillsStopAtCap | src/enclave/relay/meter.py:97-118 | bills falling due one after another are charged up to the first that reaches the cap, and none after it |
| Metering.WithinCapExactly | src/enclave/relay/meter.py:97-118 | whatever bills fall due in whatever order, the spend passes the cap if and only if the bill that first reaches it passes it |
| Metering.AffordableStaysWithin | src/enclave/relay/meter.py:79-118 | a charge of no more than an affordable quote cannot take the bill past the cap |
| Relay.RelaySession.constructor | src/enclave/relay/server.py:39-54 | a new session is created, unanswered, without actions or violations |
| Relay.RelaySession.Dispatch | src/enclave/relay/server.py:67-105 | screening, `initialise` in any phase, the sequence and answer checks, then the method asked for |
| RelayLaws.SequenceExactly | src/enclave/relay/server.py:67-90 | exactly which request is out of sequence, comes after the answer, is told ready or is accepted, what becomes of the answer, and that stripped fields are recorded whatever the reply |
| RelayLaws.AskedExactly | src/enclave/relay/server.py:107-136 | exactly when a completion is malformed or names what may not be named, and what is asked of the provider otherwise |
| RelayLaws.TellsOfModels | src/enclave/relay/server.py:92-105 | `initialise` tells the cap and, in order, every priced model but the observation channel |
| Relay.OfferedIsAccepted | src/enclave/relay/server.py:92-115 | a completion may name exactly the models that `initialise` told of |
| Relay.RelaySession.BeginCompletion | src/enclave/relay/server.py:117-145 | a completion up to the await: malformed, unpriced, refused as unaffordable, or left pending |
| Relay.RelaySession.FinishCompletion | src/enclave/relay/server.py:142-175 | the provider's answer: a failure costs nothing, otherwise billed at the larger of counted and reported tokens |
| RelayLaws.CompletionBillsLarger | src/enclave/relay/meter.py:82-111 | on an open meter a completion logs one call under its model's entry: on either side at least the counted and any reported tokens and equal to one of them, a missing or zero report leaving the count; the spend grows by its price to half a quantum, and the session ends if it reaches the cap |
| RelayLaws.CompletionBillsNothing | src/enclave/relay/server.py:142-163 | a failed provider, a sealed meter and an unpriced model change nothing; only the first is told |
| Relay.RelaySession.Settle | src/enclave/relay/server.py:154-163 | reaching the cap ends the session, any other refusal by the meter escapes |
| Relay.RelaySession.PerformAct | src/enclave/relay/server.py:177-217 | an action the sink accepts is counted and its observation billed, also when the bill is then refused |
| RelayLaws.ObservationIsBilled | src/enclave/relay/server.py:177-217 | an accepted action is counted and logged as one call of the observation channel with the tokens seen and no output, and the session ends if that reaches the cap |
| RelayLaws.ActionRefused | src/enclave/relay/server.py:177-199 | a malformed action, or one the sink raises on, changes nothing, and each is told apart |
| Relay.RelaySession.AcceptAnswer | src/enclave/relay/server.py:219-229 | a string becomes the answer, anything else leaves the session alone |
| Relay.RelaySession.EndSession | src/enclave/relay/server.py:231-234 | the phase ends and the meter is sealed |
| Relay.RelayServer.Handle | src/enclave/relay/server.py:280-314 | one event of one connection; a waiting connection is not read; an escaping exception and a reply that cannot be encoded are recorded as violations |
| RelayLaws.ArriveExactly | src/enclave/relay/server.py:280-314 | a waiting connection is not read; one that is served waits exactly if its request was let through; an escaping exception is recorded |
| RelayLaws.CompleteExactly | src/enclave/relay/server.py:142-175 | only a connection that waits is answered, and then waits no more |
| RelayLaws.OtherEvents | src/enclave/relay/server.py:280-314 | an unreadable frame, a broken connection and a lost reply each leave their violation, a cancelled completion is dropped, and the end seals the meter |
| Relay.RunKeepsSafe | src/enclave/relay/server.py:67-234 | over every interleaving of any number of connections the bill stays exact and the cap unchanged |
| Relay.CapHoldsToOneCall | src/enclave/relay/server.py:67-234 | in every reachable state an open meter is below its cap, and a bill at or above it was below before its last call |
| Relay.MeteredExactly | src/enclave/relay/server.py:67-234 | in every reachable state the bill is within half a quantum a call of the unrounded bill |
| Relay.RunGrows | src/enclave/relay/server.py:67-234 | over every run a sealed bill is final, the answer is write-once, violations, actions and calls are only added to |
| Relay.NothingBeforeInitialise | src/enclave/relay/server.py:72-79 | in every run without `initialise` nothing is billed or asked of the provider and no answer is taken |
| Relay.AnsweredTakesNothing | src/enclave/relay/server.py:72-85 | an answered session answers no request that costs anything, and stays answered |
| Relay.AnsweredBillsPending | src/enclave/relay/server.py:67-234 | from an answer on, over every run, the logged calls and the pending completions together never grow: at most what was pending is still billed |
| Relay.OffenceIsRecorded | src/enclave/relay/server.py:67-70 | banned fields, an unreadable frame, a broken connection and a reply that cannot be encoded each leave a violation |
| Relay.AloneStaysWithinCap | src/enclave/relay/server.py:117-175 | on one connection, completions billed within their quotes never take the bill above the cap: if it is above, the last call was an observation |
| Relay.ReservingStaysWithinCap | src/enclave/relay/server.py:138-163 | over any number of connections: when each new quote fits beside all pending ones and only completions are billed, every order of honest bills stays within the cap |
| Relay.RefusedExactly | src/enclave/relay/server.py:138-140 | a well-formed, priced request is answered CAP_EXHAUSTED if and only if its quote exceeds what remains; then the meter is sealed and the phase over, and nothing is billed either way |
| Relay.OverspendsExactly | src/enclave/relay/server.py:67-234 | over every interleaving the spend is past the cap if and only if at some step, the meter still open, a bill fell due that took it there |
| Relay.TwoConnectionsOverspend | src/enclave/relay/server.py:138-163 | two connections ask before either is billed: both quotes fit the cap, both bills together exceed it |
| Episode.ClassifyEpisode | src/enclave/episode/runner.py:70-92 | the first rule that applies decides the outcome |
| Episode.OutcomeExactly | src/enclave/episode/runner.py:70-92 | for each outcome, exactly which whole runs are recorded with it, by container, violations, spend, answer, calls and grade |
| Episode.RunEpisode | src/enclave/episode/runner.py:95-163 | runs the events on a fresh meter, seals it, grades the answer if there is one, and records outcome, spend, calls, counts and digest; a non-positive cap is refused |
| Episode.StoredIsConsistent | src/enclave/episode/runner.py:136-156 | the stored spend is the sum of the half-even prices of the stored calls, and violations, grade and outcome agree |
| Episode.SolvedMeansMetered | src/enclave/episode/runner.py:95-163 | over every run a solved record had no violation at any point, a completed container, a spend below the cap that is the exact price of its calls, and a charged model call with output |
| Episode.ViolationsStay | src/enclave/episode/runner.py:78-79 | a violation recorded at any point is still recorded when the episode is classified |
| Episode.OffenderIsNeverSolved | src/enclave/episode/runner.py:70-92 | a submission that offends at any point of a run is recorded as a protocol violation, or as a failed start |
| Episode.RecordIsValid | src/enclave/episode/runner.py:136-156 | the record's own constructor never refuses what an episode hands it |
| Episode.ClampInertOnSolved | src/enclave/scoring/yield_score.py:55-60 | when scorer and meter share a cap, clamping at the cap changes no solved record's charge |
| Episode.ExhaustedIsChargedTheCap | src/enclave/scoring/yield_score.py:55-60 | an exhausted episode is charged exactly cap and penalty, however far its last call went over |
| Episode.FailedAuditVoids | src/enclave/scoring/yield_score.py:115-128 | one audited instance that is scoreable and not solved voids its round |
| Episode.RefusedQuoteIsNotExhaustion | src/enclave/episode/runner.py:82-83 | a quote refused below the cap is answered CAP_EXHAUSTED and fixes the bill, but whatever follows the episode is not recorded as an exhausted cap |
| Episode.SolvedAfterRefusal | src/enclave/relay/server.py:138-140 | a run in which that reply comes with half a dollar left, and the episode is solved |
| Prf.SeededRandom.Below | src/enclave/environments/prf.py:99-102 | a draw below the bound, one counter step; a non-positive bound is refused without a draw |
| Prf.SeededRandom.Choice | src/enclave/environments/prf.py:104-107 | an item at a drawn position; an empty list is refused |
| Prf.SeededRandom.Sample | src/enclave/environments/prf.py:109-117 | draws without replacement from the sorted items; too many are refused |
| Prf.SeededRandom.Shuffled | src/enclave/environments/prf.py:119-124 | all the sorted items in drawn order, one counter step each |
| Prf.ShuffleKeepsItems | src/enclave/environments/prf.py:119-124 | a shuffle is a rearrangement |
| Prf.SampleIsSubset | src/enclave/environments/prf.py:109-117 | a sample of distinct items has no repeats and nothing else in it |
| Prf.SampledInOrder | src/enclave/environments/prf.py:109-117 | the k-th item of a sample stands, among what is left of the items in order, at the number of the k-th draw, repeats or not |
| Prf.ShuffledInOrder | src/enclave/environments/prf.py:119-124 | and so does the k-th item of a shuffle |
| Prf.ShuffleOrderIndependent | src/enclave/environments/prf.py:119-124 | a shuffle does not depend on the order its items are given in |
| Prf.ShuffleFollowsOrder | src/enclave/environments/prf.py:119-124 | placement is decided by whatever decides the sort: shuffling texts is laying out the shuffled items they are texts of |
| Vocabulary.DrawToken | src/enclave/environments/families/archive.py:44-45 | a token is that many drawn syllables |
| Vocabulary.DrawEntities | src/enclave/environments/families/archive.py:199-206 | the entity loop: names drawn, deduplicated and sorted, refilled until there are enough |
| Vocabulary.StandardIsSound | src/enclave/environments/families/archive.py:18-37 | the shipped word lists have what the guarantees need: no attribute can be spelled by syllables, no filler looks like an entry, attributes differ |
| Vocabulary.NoTermInValue | src/enclave/environments/families/archive.py:44-45 | no value, whatever is drawn, contains an entity's or an attribute's name |
| Vocabulary.DrawnAreEntities | src/enclave/environments/families/archive.py:199-206 | the drawn entities are different hyphenated names in ascending order |
| Archive.PlantFacts | src/enclave/environments/families/archive.py:208-212 | one fact for every entity and attribute, in order, values drawn from the value seed |
| Archive.DrawGraded | src/enclave/environments/families/archive.py:214-216 | the graded keys: a sorted sample of the fact keys |
| Archive.Place | src/enclave/environments/families/archive.py:218-220 | each key, in sorted order, goes to the bucket its draw names |
| Archive.WriteLines | src/enclave/environments/families/archive.py:225-233 | entry lines for the bucket's facts and filler lines, in drawing order |
| Archive.WriteDocument | src/enclave/environments/families/archive.py:224-239 | a document: its lines shuffled, then its title, advancing the draws by a count that depends on the bucket alone |
| Archive.WriteDocuments | src/enclave/environments/families/archive.py:222-239 | every document under its identifier |
| Archive.BuildIndex | src/enclave/environments/families/archive.py:243-251 | the index lists for each term what a naive scan of the documents finds, and nothing else |
| Archive.Build | src/enclave/environments/families/archive.py:185-260 | the whole of `_build`, refusing too few entities or documents and too many graded keys |
| ArchiveDraws.ValuesAreDrawn | src/enclave/environments/families/archive.py:195-212 | in a built world the entities are named by the spec seed's structure draws, and the value of the n-th pair of entity and attribute is the syllables at the value seed's draws 3n, 3n+1 and 3n+2; there is no other fact |
| ArchiveDraws.AuditChangesValues | src/enclave/environments/families/archive.py:179-212 | of two worlds of one spec a fact keeps its value exactly when both value seeds take the same three draws for it, the syllables being prefix-free |
| ArchiveDraws.StandardIsPrefixFree | src/enclave/environments/families/archive.py:18-37 | the shipped syllables are prefix-free |
| ArchiveDraws.GradedAreDrawn | src/enclave/environments/families/archive.py:214-216 | the graded keys are ascending, as many as asked for, and picked one after the other from the sorted fact keys by the value seed's selection draws |
| ArchiveDraws.HomesAreDrawn | src/enclave/environments/families/archive.py:218-239 | the n-th key is stated in the document the spec seed's n-th placement draw names, is found there by entity and by attribute, and no other document has a line about it |
| ArchiveDraws.DocumentsAreListed | src/enclave/environments/families/archive.py:222-241 | exactly the documents asked for, and an order that lists each of them once |
| ArchiveDraws.RefusedExactly | src/enclave/environments/families/archive.py:185-216 | a spec is refused exactly for too few entities or documents, or for more graded keys than entities times attributes |
| ArchivePages.DocumentHolds | src/enclave/environments/families/archive.py:222-239 | a document holds one entry line for each key that placement sends there, with its fact, as many filler lines as there should be and nothing else, laid in the order that the placement draws behind them say, under a title |
| ArchivePages.OrderIsLaid | src/enclave/environments/families/archive.py:241-241 | the documents are listed in the order that the last placement draws say |
| ArchiveEnvironments.ArchiveEnvironment.Act | src/enclave/environments/families/archive.py:107-127 | listing, searching and reading show the world, arguments stripped and terms folded; only a read that succeeds is recorded |
| ArchiveEnvironments.SearchShows | src/enclave/environments/families/archive.py:113-119 | however a term is padded and in whichever case, a search shows what the index lists for it |
| ArchiveEnvironments.ReadShows | src/enclave/environments/families/archive.py:120-127 | however an identifier is padded, reading shows title and body of that document, or fails when there is none |
| ArchiveEnvironments.ListShows | src/enclave/environments/families/archive.py:107-112 | listing shows every document on a line of its own, in order: identifier, tab, title |
| ArchiveEnvironments.OthersFail | src/enclave/environments/families/archive.py:113-127 | a blank term and an unknown action are errors |
| ArchiveEnvironments.ArchiveEnvironment.GradeAnswer | src/enclave/environments/families/archive.py:129-157 | invalid JSON, no object, all correct, or the missing and wrong graded keys with the expected values; a graded key without a fact is an error |
| ArchiveEnvironments.GradeNames | src/enclave/environments/families/archive.py:137-157 | a grade names exactly the graded keys that have no value and those that have another one |
| ArchiveEnvironments.SolvesExactly | src/enclave/environments/families/archive.py:137-157 | an answer solves exactly when it gives every graded key its value up to normalising |
| ArchiveLaws.HeadDecides | src/enclave/environments/families/archive.py:228-234 | whatever the values, two lines of a document sort as their parts before the value do |
| ArchiveLaws.DocumentIsLaidOut | src/enclave/environments/families/archive.py:224-239 | each document is a layout that no value enters, with the values filled in |
| ArchiveLaws.LineMentions | src/enclave/environments/families/archive.py:245-251 | a line contains a searchable term exactly when its part before the value does |
| ArchiveLaws.AuditChangesOnlyValues | src/enclave/environments/families/archive.py:179-260 | for one spec and any two value seeds both worlds are refused alike, or agree in entities, titles, order, line positions and index, and differ only in values and graded keys |
| ArchiveLaws.IndexAgreesWithScan | src/enclave/environments/families/archive.py:243-251 | for every entity and attribute the index lists, ascending and without repeats, exactly the documents whose folded text contains it |
| ArchiveLaws.FactIsFindable | src/enclave/environments/families/archive.py:208-251 | every fact is stated by exactly one line of exactly one document, found by searching its entity or its attribute |
| ArchiveLaws.ReadingRecovers | src/enclave/environments/families/archive.py:222-251 | every world can be solved by reading: a fact's value stands in a document found by searching its entity |
| ArchiveLaws.BuiltIsGood | src/enclave/environments/families/archive.py:185-260 | whatever is built satisfies what these laws require, and grades only its own facts |
| ArchiveLaws.CarriedAnswer | src/enclave/environments/families/archive.py:129-157 | one world's complete answer solves the other exactly when no graded value of the other changed, and always solves its own |
| Ledgers.EntryRoundTrip | src/enclave/ledger/store.py:37-65 | reading back a stored record gives the same record |
| Ledgers.LineRoundTrip | src/enclave/ledger/store.py:119-146 | reading back a stored line gives the same record, predecessor and link |
| Ledgers.Ledger.OpenRound | src/enclave/ledger/store.py:87-98 | a new header is stored, the same one accepted, a different or unsafe one refused |
| Ledgers.Ledger.ReadTip | src/enclave/ledger/store.py:106-110 | the link of the last stored record, or genesis |
| Ledgers.Ledger.Append | src/enclave/ledger/store.py:112-131 | the record is linked to the tip and stored; unsafe, unopened and undecodable rounds are refused |
| Ledgers.Ledger.Verify | src/enclave/ledger/store.py:151-157 | the verdict of the loop: false from the first broken link on, an error at the first undecodable line before it |
| LedgerLaws.VerifyIsIntact | src/enclave/ledger/store.py:151-157 | on a ledger that decodes, verification succeeds exactly when every record names its predecessor's link and carries its own |
| LedgerLaws.AppendKeepsVerified | src/enclave/ledger/store.py:112-157 | appending to a verified chain, the stored line being decoded again, leaves a verified chain with the new link as tip |
| LedgerLaws.PrefixVerifies | src/enclave/ledger/store.py:151-157 | any prefix of a verified chain is verified |
| LedgerLaws.RunKeeps | src/enclave/ledger/store.py:87-131 | over every run of operations all rounds stay verified, no header changes and no line is lost |
| LedgerRuns.AppendAddsOne | src/enclave/ledger/store.py:112-131 | an append to a verified open round adds exactly its record, readable back, behind the old tip and as the new one, its link the hash of both; any other is refused and changes nothing |
| LedgerRuns.OpenKeepsFirst | src/enclave/ledger/store.py:87-98 | opening stores a new header under a safe name; a round keeps its first one, and one of another digest is refused |
| LedgerRuns.RunRecords | src/enclave/ledger/store.py:77-131 | over every run from an empty ledger a round holds exactly the records appended since it was opened, in order, and verifies; it is open exactly when its name is safe and something opened it |
| LedgerRuns.HeaderIsFirst | src/enclave/ledger/store.py:87-104 | over every run the header of a round is the one it was first opened with |
| LedgerLaws.SameTipSameDigests | src/enclave/ledger/store.py:24-34 | two verified chains with one tip have the same digests in the same order, or the proof hands over a hash collision or a genesis preimage |
| LedgerLaws.TamperEvidence | src/enclave/ledger/store.py:24-65 | and then the same records, given one canonical text per tree |
| Directives.DirectiveKeeper.FetchDirective | src/enclave/validator/daemon.py:140-155 | the newest revision served and its signed bytes are kept |
| Directives.DirectiveKeeper.Adopt | src/enclave/validator/daemon.py:157-168 | the revision goes into force and its bytes to the cache, if they can be written |
| Directives.DirectiveKeeper.AskInForce | src/enclave/validator/daemon.py:170-202 | the latest revision once effective, otherwise the previous one while effective, otherwise none |
| Directives.RevisionsNeverGoBack | src/enclave/validator/daemon.py:122-202 | with revisions served in order and adoptions reaching the disk, returned revisions never go backwards, restarts included |
| Directives.GoesBackExactly | src/enclave/validator/daemon.py:122-202 | with revisions served in order and writes arbitrary, answers go backwards if and only if some ask finds the latest not effective, nothing adopted since the restart, and a readable, effective cache older than the last answer |
| Directives.BackAfterLostWrite | src/enclave/validator/daemon.py:122-202 | behind every such ask is a lost write: the revision answered last was adopted without reaching the disk, none adopted later has, and the process restarted since |
| Directives.LostWriteGoesBack | src/enclave/validator/daemon.py:108-138 | it does happen: one failed cache write before a restart and an older revision comes back |
| Directives.InForceRefinesNewest | src/enclave/validator/daemon.py:170-202 | the answer is the newest served revision effective at the block exactly when the latest is effective, or nothing served since the last adoption is, or only the one adopted served again |
| Directives.PromptAdoptionRefines | src/enclave/validator/daemon.py:170-202 | it always is when each revision is adopted before the next is served, however often the pending one is polled |
| Directives.SkippedRevision | src/enclave/validator/daemon.py:140-193 | a revision fetched over before it took effect is skipped while its successor waits |
| Validators.Validator.Score | src/enclave/validator/daemon.py:210-258 | one turn of the score loop: fetch, pause, in force, open, lock, and wait for an evaluation |
| Validators.Validator.RecordResult | src/enclave/validator/round.py:167-167 | a finished evaluation adds a record to its round |
| Validators.Validator.LeaveRound | src/enclave/validator/state.py:111-119 | leaving a round releases the lock if it is still this process's |
| Validators.Validator.Weigh | src/enclave/validator/daemon.py:442-473 | one turn of the weight loop: hold for a round in flight, otherwise publish under the directive in force |
| Validators.Validator.PublishUnconfigured | src/enclave/validator/daemon.py:359-391 | the fallback vector, held back once a directive is cached or a round has records |
| Validators.PublicationWaitsForRound | src/enclave/validator/daemon.py:253-283 | in every interleaving a weight pass that meets an evaluation waiting inside a round changes nothing, unless the round is older than the stale limit |
| Validators.RoundIsExclusive | src/enclave/validator/state.py:89-110 | nobody else gets or releases the lock of a round that is being evaluated, however old it is |
| Validators.OtherRoundHolds | src/enclave/validator/state.py:80-98 | while another live process holds an unexpired lock nothing is published, and no round starts |
| Validators.FallbackExactly | src/enclave/validator/daemon.py:359-391 | exactly when the fallback vector is published |
| ValidatorLaws.WeighExactly | src/enclave/validator/daemon.py:442-473 | everything a weight pass does: held while a round is in flight, otherwise a worthy vector under the governing revision, or the fallback if nothing is known |
| ValidatorLaws.FoldedExactly | src/enclave/validator/daemon.py:442-473 | a folded vector goes out exactly when no round is in flight, a revision governs and the vector is worthy, and it is folded from the records there are under that revision |
| ValidatorLaws.LeavingFreesLock | src/enclave/validator/state.py:111-119 | in every interleaving leaving a round frees its lock, and does nothing else |
| ValidatorLaws.ScoreExactly | src/enclave/validator/daemon.py:210-258 | exactly when a turn of the score loop takes a revision, opens a round, and evaluates it under the lock |
| ValidatorLaws.ProgressCounts | src/enclave/validator/round.py:167-167 | an evaluation that ends adds one record to the round being evaluated, and to no other |
| ValidatorLaws.RelaunchKeepsFiles | src/enclave/validator/daemon.py:108-138 | a relaunch keeps the cached revision, the lock file and what is filed, forgets what was served and adopted, and is in no round |
| Validators.NoFallbackAfterRecords | src/enclave/validator/daemon.py:360-368 | once any round has a record the fallback vector is never published again |
| Validators.NoFallbackAfterCache | src/enclave/validator/daemon.py:360-368 | nor once a directive is cached, while the cache can be read back |
| Validators.RunFollows | src/enclave/validator/daemon.py:285-473 | both loops together drive one directive machine, and publish only under what it answered |
| Validators.PublishedInOrder | src/enclave/validator/daemon.py:285-473 | whatever the interleaving and however often the process is relaunched, vectors go out under revisions that never go backwards |
| Discovery.KeyIsPlace | src/enclave/chain/payment.py:48-50 | two proofs with one key point at the same extrinsic of the same block |
| Discovery.Discover | src/enclave/validator/discovery.py:66-138 | the candidates in hotkey order with their rejections, whatever the order of the commitments |
| Discovery.Examine | src/enclave/validator/discovery.py:83-136 | what becomes of one registered hotkey and which payment it spends |
| Discovery.FeesAreConserved | src/enclave/validator/discovery.py:76-138 | with a positive fee the admitted stand for as many different transfers to the treasury, each of exactly the fee, in all admitted times fee |
| Discovery.OneCandidateEach | src/enclave/validator/discovery.py:79-81 | every registered hotkey with a commitment is a candidate, once, in ascending order, and nobody else is |
| DiscoveryLaws.VisitIs | src/enclave/validator/discovery.py:83-136 | each registered hotkey becomes one candidate, admitted exactly if it qualifies behind those before it, rejected otherwise, with the image it disclosed |
| DiscoveryLaws.AdmittedExactly | src/enclave/validator/discovery.py:66-138 | without a fee every registered hotkey whose reveal can be read; with one exactly those among them that paid it with a transfer no earlier hotkey was admitted with |

## Left out

- Decimal arithmetic: money, shares and yields are exact reals with explicit half-even quantising; the context precision and `InvalidOperation` are not modelled, except that `Apportionment.RemainderUnderRounding` tolerates any error delta with n*delta < 1.
- Decay.DecayAccuracy: stated for any number of steps; the source's 400 give 2^-401. The source's context has 96 digits, so its loop stalls near 1e-96, before 2^-401; that rounding is not modelled.
- Publication.AsUidFails: the failure it characterises is an error of `as_uid_ppm` that the source never reaches with a positive placed share.
- Text and JSON: requests, reveals, answers and stored lines are modelled after parsing, as trees or values; frame size, depth and item limits are left out. `json.dumps` and SHA-256 are arbitrary functions: `LedgerLaws.TamperEvidence` asks for one text per tree and 64-character digests, nothing more.
- Ledgers.EntryRoundTrip: `str`, `int`, `bool`, `Decimal` are known only on values the ledger writes; a hand-edited line with a member of another JSON type is read by unspecified conversions. A non-boolean `audit_passed` in such a line reads as absent. Header files hold the header itself, not its text.
- Ledgers.Ledger.Append: one process writes a round at a time; blank lines and partial writes are not modelled.
- Vocabulary.DrawEntities: assumes that the seed draws enough different names after some number of refills; the source would loop for ever otherwise.
- Archive.Build: the word lists are a parameter that must be `Sound`; `Vocabulary.StandardIsSound` shows that the shipped ones are. Lines are kept as values until they are shuffled. `casefold` is modelled on ASCII, all the lists use. A seed's digest is an arbitrary function of seed and counter.
- ArchiveEnvironments.ArchiveEnvironment.Act: arguments arrive as text; `casefold` beyond ASCII, `briefing`, `actions` and `construction_digest` are left out.
- ArchiveEnvironments.ArchiveEnvironment.GradeAnswer: an answer arrives parsed, its members as text or null; `normalise_answer` is an arbitrary function.
- Relay.RelaySession.Dispatch: the reply to `initialise` carries the cap and the models, not the constants it echoes: instance, seed, environment and deadline.
- Relay.RelayServer.Handle: the token counter, the environment and the provider are inputs of each event.
- Relay.AloneStaysWithinCap: says nothing of observations, which the source bills without asking first.
- Episode.RunEpisode: the container's outcome is an input; the digest is an arbitrary function of calls, spend and answer; exit code and the wording of the grade are left out.
- Directives.InForceRefinesNewest: for a readable cache; with an unreadable one the answer after a restart is none until a revision takes effect.
- Validators.PublicationWaitsForRound: for a lock file that can be read; an unreadable one counts as no lock. A new lock is written in one step with its check, as nothing in the process waits in between.
- Validators.Validator.Weigh: whether the folded vector names anybody and the reserved hotkey is registered are inputs; the fold itself is `Settlement` and `Publication`. The settled round is any with records.
- Settlement.ScoreSubmissions: the dictionary of scores is a sequence in its own sorted order; header parameters are an input.
- Ranking.RankFairness: for exact shares; for computed ones see `Ranking.RankFairnessUnderRounding`.
- Discovery.Discover: a reveal is parsed by an arbitrary function; the check that it opens its own commitment is left out, as the commitment is computed from the same reveal. Errors of the chain reader other than a rejection are not modelled.
- Network, sockets, Docker, the control plane, signatures, clocks and logging: inputs of the steps that use them, or left out.
- `settled_yield`, `mcnemar_counts`, `reference_multiple`, `plan_round`, the audit key, heartbeats, retry and backoff intervals: left out, they would add easy members only.
