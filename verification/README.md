# ResilientMesh, modelled in Dafny

ResilientMesh recovers failed payments and keeps evidence of every decision it took. This project
models the parts whose correctness the rest leans on, and proves what they promise:

- **Evidence.** The Merkle tree over the audit ledger and its inclusion proofs (`Merkle`), against
  sections 2.1 and 2.1.1 of RFC 6962; the hash-chained ledger and its verification walk (`AuditChain`);
  the length-prefixed framing both hash over (`Framing`).
- **Calibration.** Isotonic regression by pool-adjacent-violators (`Isotonic`) and its optimality
  (`IsotonicOptimal`), where its blocks end (`IsotonicBlocks`); the reliability diagram (`Reliability`)
  with its identities (`ReliabilityLaws`) and orders (`ReliabilityOrder`); fitting in sample (`InSample`)
  and across folds (`CrossFit`); confidence cut-offs (`Threshold`).
- **Circuit breaker.** Configuration clamps and the two atomic scripts over one issuer's keys
  (`Breaker`), arbitrary runs of them with key expiry (`BreakerRuns`), and when something is let through
  again (`BreakerWedges`).
- **Bandit.** The logged action distribution and the draw from it (`BanditPolicy`), learning and its
  export (`BanditState`), runs of both (`BanditRuns`), when order matters (`BanditOrder`), the state
  digest (`BanditDigest`), what it identifies (`BanditIdentity`) for states that updates alone reach
  too (`BanditLearned`), and where it fails (`BanditAmbiguity`).
- **Recovery planners.** The outcome model and the compliance referee (`Recovery`), the four planners
  and the simulation loop over whole runs (`Policies`).

`Names` orders and lists names as Go compares strings; `Collections` holds the stock types and facts
about finite collections they share.

Code that works in place is modelled by classes and methods over fields and arrays, each proved
against a specification function; the theorems are about those functions and about runs of them.

SHA-256 is a parameter: an arbitrary function from byte strings to 32 bytes. Nothing assumes it
injective. A claim that rests on it ends in "or a collision", and the collision is always between two
different strings out of a named finite set, the ones the code actually hashed.

`dafny verify dfyconfig.toml` checks everything.

## Where the code and its comments part

The model follows the code. Each of these is a lemma in the table below.

- `merkle.go` says a proof's tree size pins it to one ledger. The verifier only compares the size with
  the index (`Merkle.PositionIsNotBound`). What acceptance shows is membership, and the place by the
  sides of the path (`Merkle.AcceptedEntryIsALeaf`, `Merkle.SidesPinTheLeaf`), whatever index is claimed.
- `calib.go` says reliability minus resolution plus uncertainty equals Brier. In general two further
  terms are needed; the identity holds exactly when they cancel
  (`ReliabilityLaws.ThreeTermIdentityExactly`).
- `calib.go` describes a block as a maximal run of one fitted value. The loop merges only pairs that run
  strictly downhill, so neighbours of equal value can stay apart (`IsotonicBlocks.RepeatedValueSurvives`);
  `IsotonicBlocks.RunsAreMaximalExactly` says, of the corpus alone, when they do not.
- `breaker.go` says the key lifetime's ceiling lies well above ten times the longest cooldown. It is
  seven days against ten; seven cooldowns are always kept, ten only up to 16.8 hours
  (`Breaker.TenCooldownsExactly`).
- `bandit.go` says no rearrangement of names can produce a second state with the same digest. Under some
  arm names it can (`BanditAmbiguity.ColonArmsAreAmbiguous`, `BanditAmbiguity.EmptyCellsAreAmbiguous`);
  `BanditIdentity.IdentifiesStatesExactly`, `BanditIdentity.IdentifiesFullStatesExactly` and, for updates
  alone, `BanditLearned.IdentifiesLearnedExactly` say which.
- `breaker.go` is meant never to wedge, and from a store its own scripts wrote it never does
  (`BreakerWedges.OwnStoresNeverWedge`). A store that something else wrote can refuse until a cooldown
  past an instant it holds, or for ever if that is infinite, undefined or erased, unless a report arrives
  or the key expires: one whose opening instant is ahead of the clock, and a half-open one that takes no
  further probe, its count at the budget or a text that HINCRBY refuses, with its start ahead or unreadable
  (`BreakerWedges.WedgesExactly`, `BreakerWedges.WedgedShapes`). Of two checks a cooldown apart both can
  be refused, because a third took the probe between them (`BreakerWedges.LastRefusedExactly`).

## Model

| member | source | states |
|---|---|---|
| `Framing.HexRoundTrip` | internal/domain/records.go:281-291 | the hex form in which digests are recorded decodes back to the very bytes |
| `Framing.FrameIsPrefixFree` | internal/domain/records.go:304-309 | a length-prefixed field can be peeled off the front of a byte stream in one way only |
| `Framing.AbsorbInjective` | internal/domain/records.go:304-317 | the absorbed stream determines the list of fields: no choice of contents shifts a boundary |
| `Merkle.LeafAndNodeBytesDiffer` | internal/attest/merkle.go:40-43 | domain separation: no leaf preimage is a node preimage |
| `Merkle.NextLevel` | internal/attest/merkle.go:102-109 | one builder pass pairs neighbours and promotes an odd last node |
| `Merkle.PairedIsLevel` | internal/attest/merkle.go:101-113 | the invariant: if node i of a level is the section 2.1 hash of the i-th aligned run of 2^j leaves, the next level is the same for 2^(j+1) |
| `Merkle.New` | internal/attest/merkle.go:93-115 | for every entry list the builder stores exactly ceil(log2 n) + 1 levels, each holding the section 2.1 hashes of the aligned runs |
| `Merkle.TopIsMTH` | internal/attest/merkle.go:93-115 | the single top node is MTH(D[n]) as section 2.1 of RFC 6962 defines it recursively |
| `Merkle.Root` | internal/attest/merkle.go:126-132 | the root is MTH(D[n]); the empty tree is refused |
| `Merkle.ClimbPath` | internal/attest/merkle.go:178-193 | climbing one level by index halving extends the section 2.1.1 path by the stored sibling, or by nothing where the node was promoted |
| `Merkle.StoredPathIsPATH` | internal/attest/merkle.go:170-207 | the siblings read off the stored levels are PATH(m, D[n]) of section 2.1.1, sides included |
| `Merkle.CutPath` | internal/attest/merkle.go:178-193 | the index-halving loop collects exactly those siblings, written in hex |
| `Merkle.ProofFor` | internal/attest/merkle.go:170-207 | for every list and every index the proof is the prescribed one; empty trees and indices out of range give their own errors |
| `Merkle.PathIsLogarithmic` | internal/attest/merkle.go:170-207 | a proof holds at most ceil(log2 n) hashes |
| `Merkle.VerifyProof` | internal/attest/merkle.go:215-237 | acceptance is exactly: positions in range, the entry's leaf hash matches, every step is 32 bytes of hex, and the fold gives the root |
| `Merkle.CutProofsVerify` | internal/attest/merkle.go:170-237 | completeness: every proof cut from a tree is accepted for its own entry |
| `Merkle.AcceptedEntryIsALeaf` | internal/attest/merkle.go:215-237 | soundness for paths of any length: what is accepted carries exactly the prescribed path, sides included, of a leaf of the ledger that holds the entry, or two different strings hashed by builder or verifier collide |
| `Merkle.SidesPinTheLeaf` | internal/attest/merkle.go:144-152 | the sides of a path alone tell which leaf of a tree it is for |
| `Merkle.EqualRootsEqualLists` | internal/attest/merkle.go:87-115 | two non-empty lists of any lengths with equal roots are equal, or a collision is exhibited |
| `Merkle.PositionIsNotBound` | internal/attest/merkle.go:154-167 | the comment on `TreeSize` promises more than the check does: a proof verifies under any index and size in range of each other, and under no others |
| `AuditChain.PreimageInjective` | internal/domain/records.go:281-317 | the entry encoding is unambiguous: equal preimages mean equal hashed fields, 64-bit wrap-around included |
| `AuditChain.Verify` | internal/audit/ledger.go:189-231 | the walk reports the longest prefix that holds, the row after it and which of position, linkage and content failed first; a failed stream is an error only if no break came before |
| `AuditChain.VerdictUnique` | internal/audit/ledger.go:189-231 | the rows determine the report |
| `AuditChain.EditVerdict` | internal/audit/ledger.go:195-231 | the report on a valid chain with row k replaced by any row at all: where it breaks, under which cause, with which head, or that it does not |
| `AuditChain.EditedRowIsLocalised` | internal/audit/ledger.go:195-231 | any edit of any field of any row without a matching recomputed digest is reported at exactly that row with the right cause, or a collision |
| `AuditChain.RehashedRowMovesTheBreak` | internal/audit/ledger.go:195-231 | recomputing the edited row's digest moves the break to its successor, or a collision |
| `AuditChain.RehashedHeadVerifies` | internal/audit/ledger.go:195-231 | at the head nothing follows, so there a rehashed edit verifies |
| `AuditChain.DeletedRowIsTheGap` | internal/audit/ledger.go:195-231 | deleting an interior row is reported as a sequence gap at the missing position |
| `AuditChain.ChainExtends` | internal/audit/ledger.go:195-231 | a ledger stays valid on exactly the rows that take the next position, link to the head and hash right |
| `AuditChain.HeadDeterminesLedger` | internal/domain/records.go:281-300 | two non-empty valid ledgers with one head digest are equal row for row, or two entries collide |
| `AuditChain.EqualHeadsEqualLedgers` | internal/audit/ledger.go:189-231 | the same from the two reports alone: pinning the reported head pins the ledger |
| `Isotonic.Pool` | internal/calib/calib.go:347-358 | equal confidences are pooled into one point with their hits and their number |
| `Isotonic.MergedBlock` | internal/calib/calib.go:367-379 | two neighbours that run downhill merge into a block every proper prefix of which has a larger mean |
| `Isotonic.PoolAdjacentViolators` | internal/calib/calib.go:365-379 | the stack-merging loop partitions the points into such blocks with non-decreasing means |
| `Isotonic.Fit` | internal/calib/calib.go:337-387 | fitting fails exactly on invalid corpora, with the right error, and otherwise yields a fit of the corpus |
| `IsotonicOptimal.PoolingPreservesSums` | internal/calib/calib.go:347-358 | pooling loses nothing: every sum over the corpus is the weighted sum over its points |
| `IsotonicOptimal.FitIsLeastSquares` | internal/calib/calib.go:306-387 | optimality with a margin: any other correction that keeps the ranking is worse by at least its squared distance from the fit |
| `IsotonicOptimal.FitIsUnique` | internal/calib/calib.go:306-387 | a monotone correction no worse than the fit is the fit at every observed confidence |
| `IsotonicOptimal.FitIsMaxMin` | internal/calib/calib.go:337-387 | the value at each observed confidence is the max over j <= i of the min over k >= i of the average of points j..k |
| `IsotonicOptimal.ApplyPreservesRanking` | internal/calib/calib.go:389-404 | correction never reorders any two confidences, observed or not |
| `IsotonicOptimal.ApplyBetweenPoints` | internal/calib/calib.go:389-404 | an unobserved confidence is corrected like the next observed one above it, or like the last |
| `IsotonicOptimal.FitIsDetermined` | internal/calib/calib.go:337-387 | a corpus has one fit, block for block, whatever order the pooled points were visited in |
| `IsotonicBlocks.EqualNeighboursExactly` | internal/calib/calib.go:311-314 | inside a level run of the fit a block ends exactly where, from the start of the run, the hits equal the fitted value times the weight |
| `IsotonicBlocks.RunsAreMaximalExactly` | internal/calib/calib.go:311-314 | the blocks are maximal runs of one value, as the comment has it, if and only if, on the corpus alone, against no frequency the running excess of hits over expected hits is lowest in three places |
| `IsotonicBlocks.RepeatedValueSurvives` | internal/calib/calib.go:311-314 | a four-observation corpus whose only fit repeats a value in two blocks |
| `Reliability.Tally` | internal/calib/calib.go:226-248 | one pass leaves every bin's count, confidence sum and hits, and the three totals, in place |
| `Reliability.Measured` | internal/calib/calib.go:223-294 | the two passes produce exactly the report of the corpus, figure by figure |
| `ReliabilityLaws.BinsPartition` | internal/calib/calib.go:231-248 | every observation lands in exactly one bin, a confidence of exactly 1 included |
| `ReliabilityLaws.BrierDecomposition` | internal/calib/calib.go:160-168 | Brier = reliability - resolution + uncertainty + within-bin variance - 2 x within-bin covariance, for every corpus and bin count |
| `ReliabilityLaws.ThreeTermIdentityExactly` | internal/calib/calib.go:163-168 | the documented three-term identity holds if and only if the variance is twice the covariance |
| `ReliabilityLaws.IdentityWithoutMixing` | internal/calib/calib.go:163-168 | it holds whenever each bin was stated with one confidence |
| `ReliabilityLaws.ThreeTermIdentityCanFail` | internal/calib/calib.go:163-168 | a two-observation corpus on which it does not hold |
| `ReliabilityOrder.ErrorOrder` | internal/calib/calib.go:150-168 | |mean confidence - accuracy| <= ECE <= MCE <= 1 and ECE^2 <= reliability <= MCE^2 |
| `InSample.CorrectionInUnit` | internal/calib/calib.go:389-404 | every correction, at any confidence, is a frequency in [0, 1] |
| `InSample.ResidualsBalance` | internal/calib/calib.go:337-404 | correction minus outcome sums to zero over any part of the corpus picked out by the corrected value |
| `InSample.InSampleIsPerfect` | internal/calib/calib.go:484-494 | correcting a corpus with its own calibrator gives ECE, MCE and reliability of exactly zero at every bin count |
| `InSample.InSampleBrierImproves` | internal/calib/calib.go:484-494 | and never a worse Brier score |
| `CrossFit.Folds` | internal/calib/calib.go:574-586 | the shuffled deal is a permutation of the indices dealt round-robin, whatever the shuffle drew |
| `CrossFit.FoldsAreBalanced` | internal/calib/calib.go:574-586 | the folds partition the corpus; fold f holds n/k observations, one more if f < n mod k |
| `CrossFit.CrossFitted` | internal/calib/calib.go:496-517 | every observation is corrected exactly once, by a calibrator fitted on everything outside its own fold |
| `CrossFit.OwnOutcomeCannotMatter` | internal/calib/calib.go:496-517 | two runs that differ only inside an observation's fold give it the same corrected confidence |
| `CrossFit.NoiseFloor` | internal/calib/calib.go:547-572 | for any variates: the mean error of the redrawn corpora, or the right one of its errors |
| `CrossFit.FloorInUnit` | internal/calib/calib.go:533-572 | whatever was drawn the floor lies in [0, 1] |
| `CrossFit.CertaintyHasNoFloor` | internal/calib/calib.go:533-572 | a corpus stated with certainty has a floor of zero, whatever was drawn |
| `CrossFit.FitAndMeasure` | internal/calib/calib.go:470-531 | when it succeeds, which error it gives otherwise, and what every field of the repair is; the fold loop's own two errors are unreachable |
| `Threshold.AccuracyAt` | internal/calib/calib.go:661-682 | the cut-off's acceptances, hits, accuracy and coverage on every corpus, or the corpus's fault |
| `Threshold.Sweep` | internal/calib/calib.go:632-652 | the sweep over the sorted corpus meets the target at what it returns and misses no lower cut-off that does |
| `Threshold.ThresholdFor` | internal/calib/calib.go:617-657 | the lowest stated confidence whose cut meets the target, or an error exactly when none does |
| `Threshold.StatedCutsSuffice` | internal/calib/calib.go:606-657 | a cut-off between two stated confidences delivers what the next stated one delivers |
| `Breaker.ClampsHold` | internal/breaker/breaker.go:184-288 | whatever the operator wrote, NaN included, the key lifetime is at least seven cooldowns and every bound the scripts rely on holds |
| `Breaker.TenCooldownsExactly` | internal/breaker/breaker.go:97-104 | the comment's ten cooldowns are kept if and only if the cooldown is at most 16.8 hours |
| `Breaker.IssuerKeys.Allow` | internal/breaker/breaker.go:668-734 | the admission script, command by command: its verdict and the keys it leaves, every field; where HINCRBY refuses the count the script fails and changes nothing |
| `Breaker.IssuerKeys.Report` | internal/breaker/breaker.go:759-822 | the outcome script: its verdict with the evidence counts, and the keys it leaves |
| `BreakerRuns.ShedsForTheCooldown` | internal/breaker/breaker.go:97-104 | once it opens at t no check before t + cooldown is admitted, in any interleaving of checks, late reports and key expiries, from any store |
| `BreakerRuns.SoundStep` | internal/breaker/breaker.go:668-822 | one step of any kind keeps the invariant on timestamps, probes and window |
| `BreakerRuns.ProbeBudgetHolds` | internal/breaker/breaker.go:692-708 | in every run the stored count is the number of probes admitted in the current half-open episode, between 1 and the budget |
| `BreakerWedges.NeverWedges` | internal/breaker/breaker.go:661-734 | in any stretch of checks and expiries, without a report, that spans a cooldown, some check is admitted, even from a corrupt state or count or with probes lost, if the timestamp that counts is sane |
| `BreakerWedges.WedgesExactly` | internal/breaker/breaker.go:668-734 | for every store, texts that are no integers included, and every instant: all such stretches from there admit something if and only if the first check is admitted or every timestamp that counts reads as an instant not ahead of the clock |
| `BreakerWedges.OwnStoresNeverWedge` | internal/breaker/breaker.go:668-822 | no store that a run of the two scripts leaves is one from which a stretch can stay refused |
| `BreakerWedges.WedgedShapes` | internal/breaker/breaker.go:682-699 | the stores from which they do not, field by field, and until when each refuses: an opening instant ahead of the clock; half-open, a count at the budget or one that HINCRBY refuses, with a start ahead of the clock or unreadable |
| `BreakerWedges.UnreadableCountWedges` | internal/breaker/breaker.go:697-712 | one of them: a count overwritten with a text, its start erased, fails the script at every check |
| `BreakerWedges.RefusalReachesBack` | internal/breaker/breaker.go:668-734 | a store that would refuse a check at some instant refuses every check up to it, until a report or an expiry |
| `BreakerWedges.BothEndsCanBeRefused` | internal/breaker/breaker.go:692-708 | the guarantee is about the stretch: its first and last check can both be refused |
| `BreakerWedges.LastRefusedExactly` | internal/breaker/breaker.go:680-709 | the first check refused, the last is refused if and only if an episode began less than a cooldown before it and its probes are all spent |
| `BreakerRuns.WindowRefinesHistory` | internal/breaker/breaker.go:736-750 | in every run the capped list is the newest WindowSize of the outcomes since the last state change or expiry, and empty unless closed |
| `BreakerRuns.TripsExactlyWhenBreached` | internal/breaker/breaker.go:801-812 | a report opens a closed breaker if and only if those outcomes meet the sample floor and breach the scaled rate; the evidence counts are theirs |
| `BreakerRuns.TrailReconstructsState` | internal/breaker/breaker.go:518-550 | in every run the notices alone reconstruct the state if and only if the hash has not expired under an open or half-open breaker since the latest one; each names the state it found and the state it left |
| `BreakerRuns.ReadsFollowTheTrail` | internal/breaker/breaker.go:486-515 | at every instant of every run a read shows the state a check would leave and, no expiry having made the trail stale, the one the notices alone foretell, the promotion of an elapsed cooldown included |
| `Names.ListingsAgree` | internal/bandit/bandit.go:690-690 | a set of names has one ascending listing |
| `BanditPolicy.CanonicalPermitted` | internal/bandit/bandit.go:600-618 | the permitted arms, each once and ascending; empty sets and unknown arms are refused |
| `BanditPolicy.Winner` | internal/bandit/bandit.go:430-443 | each draw goes to the first maximum of the priced values, ties to the lesser name |
| `BanditPolicy.CountWins` | internal/bandit/bandit.go:428-443 | the tally counts, for each arm, the draws it won |
| `BanditPolicy.WinsTotal` | internal/bandit/bandit.go:428-443 | every draw is won exactly once |
| `BanditPolicy.Distribution` | internal/bandit/bandit.go:428-462 | for any drawn values the result is the floor mixed into the shares of wins, a distribution that keeps every floor; renormalising changes nothing in exact arithmetic |
| `BanditPolicy.SumsToOne` | internal/bandit/bandit.go:445-462 | it sums to one and gives each of k arms at least min(floor, 1/k) |
| `BanditPolicy.MixedKeepsRanking` | internal/bandit/bandit.go:422-459 | more wins never mean less probability, and mean strictly more if and only if the floors do not use up all of the mass |
| `BanditPolicy.Renormalise` | internal/bandit/bandit.go:481-508 | clamp, scale, hand the residual to the largest, in place |
| `BanditPolicy.RenormalisedIsDistribution` | internal/bandit/bandit.go:478-508 | whatever goes in, a distribution comes out; a distribution is left unchanged |
| `BanditPolicy.SampleCategorical` | internal/bandit/bandit.go:510-522 | the draw is the first arm whose cumulative probability exceeds the variate, or the last arm |
| `BanditPolicy.PropensityIsIntervalLength` | internal/bandit/bandit.go:428-522 | each arm is drawn exactly on a half-open interval whose length is its logged propensity, the intervals tiling [0, 1) |
| `BanditState.SanitizeCell` | internal/bandit/bandit.go:638-652 | the bounded loop yields the allowed bytes cut at the limit, or the unknown cell |
| `BanditState.SanitizeIdempotent` | internal/bandit/bandit.go:638-652 | cleaning twice is cleaning once, and the overflow cell is clean |
| `BanditState.Model.Update` | internal/bandit/bandit.go:391-410 | one outcome moves one belief of one cell, capped; an unknown arm changes nothing |
| `BanditRuns.RunIsStorable` | internal/bandit/bandit.go:391-410 | in every run of updates and restores: clean keys, known arms, proper beliefs |
| `BanditRuns.RunKeepsBudget` | internal/bandit/bandit.go:621-630 | and at most MaxCells + 1 cells, the last only for overflow, and no empty cell, unless an accepted snapshot already broke that |
| `BanditRuns.LearnIsReachable` | internal/bandit/bandit.go:391-410 | runs of updates alone: clean keys, no empty cell, known arms, proper beliefs, at most MaxCells + 1 cells |
| `BanditRuns.RestoreIgnoresBudget` | internal/bandit/bandit.go:704-727 | what `Restore` accepts does not depend on MaxCells |
| `BanditRuns.StorableExactly` | internal/bandit/bandit.go:391-410 | exactly the states with clean keys, known arms and proper beliefs are reached by runs of updates and restores |
| `BanditState.Model.Snapshot` | internal/bandit/bandit.go:681-699 | the arms, the prior, and every cell once, in key order, with all its beliefs |
| `BanditState.Model.Restore` | internal/bandit/bandit.go:704-727 | accepted exactly when keys stay distinct, arms are known and beliefs proper; otherwise nothing changes and the error names a fault of the first cell that has one |
| `BanditRuns.SnapshotRoundTrip` | internal/bandit/bandit.go:671-727 | after any run of updates and restores, restoring a snapshot succeeds and gives back that state |
| `BanditOrder.LearnSummarises` | internal/bandit/bandit.go:391-410 | within the cell budget learning is counting: each belief is the prior raised by its successes and failures, up to the cap |
| `BanditOrder.OrderIrrelevantExactly` | internal/bandit/bandit.go:391-410 | every order of the same outcomes teaches the same if and only if their distinct clean cells fit MaxCells |
| `BanditDigest.DigestOf` | internal/bandit/bandit.go:738-767 | the streamed digest is the hash of version, prior, arms and the listing of the state, cell by cell |
| `BanditDigest.ListingIsStable` | internal/bandit/bandit.go:729-760 | a state has one listing, whatever order its maps are walked in |
| `BanditDigest.FaithfulTells` | internal/bandit/bandit.go:738-757 | a printed belief reads back when numbers print apart and without a colon |
| `BanditIdentity.RowsDecode` | internal/bandit/bandit.go:745-758 | unless the configuration is confusable the flat token list reads back in one way |
| `BanditIdentity.IdentifiesStatesExactly` | internal/bandit/bandit.go:729-760 | over everything runs of updates and restores reach, the absorbed bytes identify the state if and only if the configuration is not confusable: no arm that can stand as a later cell meets an arm that reads as a belief, or a printed belief that could be a later cell still |
| `BanditIdentity.IdentifiesFullStatesExactly` | internal/bandit/bandit.go:729-760 | over states without empty cells, if and only if it is not mistakable: not both a cell-like arm above another arm and an arm that reads as a belief below another |
| `BanditLearned.LearnableExactly` | internal/bandit/bandit.go:391-410 | exactly these states are reached by updates alone: at most MaxCells clean cells, or one more with the overflow cell, none without arms, each belief the prior raised by some counts |
| `BanditLearned.IdentifiesLearnedExactly` | internal/bandit/bandit.go:729-760 | over everything updates alone reach, if and only if one of three is missing: an arm above another that can name a second cell; an arm below another that reads as a belief some counts leave; such a belief that can name a second cell. With a budget of one the second cell comes after the overflow cell |
| `BanditLearned.DigestDeterminesLearned` | internal/bandit/bandit.go:729-760 | then equal digests of what two runs of updates learned mean equal states, or a collision |
| `BanditIdentity.DigestDeterminesState` | internal/bandit/bandit.go:729-760 | under either condition equal digests of two states of one configuration mean equal states, or a collision |
| `BanditIdentity.DigestDeterminesConfiguration` | internal/bandit/bandit.go:729-760 | with arms that do not read as beliefs and no empty cell, equal digests mean the same prior, the same arms and the same state, or a collision |
| `BanditIdentity.LetterNamesAreSafe` | internal/bandit/bandit.go:738-760 | arms that start with a letter are never confusable when numbers start with a digit |
| `BanditIdentity.PlainNamesAreSafe` | internal/bandit/bandit.go:738-760 | arms without a colon never read as beliefs and are never mistaken |
| `BanditAmbiguity.ColonArmsAreAmbiguous` | internal/bandit/bandit.go:729-760 | the comment's promise fails by updates alone: two runs of one configuration reach different states with one digest, under every hash |
| `BanditAmbiguity.EmptyCellsAreAmbiguous` | internal/bandit/bandit.go:704-760 | and for restored states: two accepted snapshots restore different states with one digest, under every hash, the arms being ordinary |
| `Recovery.RetentionNeverRises` | eval/generator.py:663-681 | the integer decay never rises with time, across every halving boundary |
| `Recovery.RetentionBand` | eval/generator.py:663-681 | within one half-life the curve stays between the halving it starts at and the next |
| `Recovery.WaitingPaysOnlyAcrossRecovery` | eval/generator.py:684-755 | postponing an attempt without crossing a recovery instant never raises its chance, nor turns a declined draw into a success |
| `Recovery.AuditViolations` | eval/policies.py:171-205 | the referee's loop charges each attempt's findings and the overflow of the cycle |
| `Recovery.RefereeIsExact` | eval/policies.py:171-205 | it charges nothing if and only if the mandate rules, stated on their own, are met |
| `Policies.Simulate` | eval/policies.py:535-570 | the loop plays the planner to its end or its error and scores the run |
| `Policies.PlayStaysInside` | eval/policies.py:535-570 | a planner that keeps an invariant, on time and within three attempts, never reaches the time-order or tape error |
| `Policies.MeshAttempt` | eval/policies.py:341-455 | what every attempt the mesh plans guarantees: timing, notice, ceiling, cycle, one session action |
| `Policies.MeshNeverBreaches` | eval/policies.py:341-455 | on every incident with a usable tape and half-life the mesh finishes, within three ordered attempts, at most one in session, with zero breaches |
| `Policies.BlindIsCharged` | eval/policies.py:218-235 | the blind loop's exact bill over every run: two findings an attempt, three above the ceiling, plus the cycle overflow |
| `Policies.CooledBaselinesAreCharged` | eval/policies.py:238-338 | the table and the incumbent keep the cooling window and nothing else: their exact bill over every run |
| `Policies.AbstainingBeatsBreaching` | eval/policies.py:505-570 | on every incident above the ceiling the mesh abstains at no cost and no baseline scores more |

## Left out

- SHA-256 itself, JSON, and writing evidence files: the hash is a parameter.
- `Append`, listing, redaction and the store behind the ledger: rows arrive as a sequence, and reading them may fail.
- Redis and PostgreSQL clients, connection errors, logging, issuer-key validation, the bounded ops index and panics in callbacks.
- Rounding and infinities of floating-point numbers: confidences, averages, beliefs and probabilities are exact reals. A trip rate that is not a number is modelled.
- Beta, gamma and normal sampling, and the seeded shuffle: drawn values and picks are inputs, so the results hold for every stream.
- The sorts of the Go library: methods with the contract of a sort stand in their place.
- The greedy label and the bookkeeping of `Select`, and the clamping of the bandit's own configuration.
- Locks: each bandit operation is one step, as its mutex makes it.
- Drawing of the incident corpus and the statistics over it.
- Gatekeeper, outbox, worker, store and off-policy estimation.
- BreakerWedges.WedgesExactly: keys of another Redis type, on which every command of the scripts fails until they are deleted, are not modelled; nor are fields of the hash other than the four the scripts use.
- BreakerWedges.LastRefusedExactly: starts from stores whose timestamps are not ahead of the clock; `BreakerWedges.WedgedShapes` covers the others.
- BanditIdentity.DigestDeterminesConfiguration: the cell budget is not part of the digest, so it stays open.
- BanditDigest.DigestOf: number printing is a parameter; the theorems about the digest say which beliefs it must tell apart.
