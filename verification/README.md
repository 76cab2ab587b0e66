# QuietBook in Dafny

A model of QuietBook's issuance market, its maximum-bid statement, its indexer and its private-balance
recovery, with proofs of what the system is for. `dafny verify dfyconfig.toml` checks all of it.

## What is modelled

- **The market** (`MarketTypes`, `MarketSpec`, `MarketContract`). `MarketSpec` says what every entry point does
  to the ledger, as a function from a ledger to a new ledger or a fault. `MarketContract.Ledger` is the contract in
  its own form, an object whose entry points load a round, change fields and save it, loop over the book in
  `close_round` and append to a byte buffer. Each method is proved to do exactly what `MarketSpec` says; what that is
  worth is proved beside it, one lemma an entry point (`MarketSteps.CreateKeeps` to `FinalizedKeeps`), and carried by
  `Invoke`, which rolls a panic back and keeps the market in order. Many rounds share one balance, and between two
  calls the environment may let time pass, set, change or remove delegations, donate tokens, deploy controllers and
  change eligibility.
- **Runs of the market** (`MarketInvariants`, `MarketSteps`, `MarketRuns`, `MarketTransitions`, `MarketRecovery`,
  `Settlement`): escrow conservation over all rounds and runs, the book invariant, the close filter, the
  transition table, one exit per lot, the guarantee that no lot is ever locked against an adversary who acts in
  between, settlement from the bidders' openings to the lot and the payment, and exactly when it goes through.
- **Access, readiness and the log** (`MarketAccess`, `MarketEnabling`, `MarketLog`): who can change a bid and a
  delegation, when exactly each call succeeds on a reachable market, and that every event ever published is borne out.
- **Several markets** (`SharedLedger`): any number of market contracts on one ledger, each at its own address. A call of
  one is to every other a legal step of its environment, so what holds of one reachable market holds of each.
- **The maximum-bid statement** (`Field`, `Curve`, `MaxBidCircuit`, `MaxBidWitness`, `Encoding`, `Statement`,
  `HonestProver`): the circuit over the BN254 scalar field, the builder that satisfies it, the 448 bytes the contract
  writes for it, and that an honest coordinator proves the very statement the contract verifies.
- **The coordinator's settlement** (`Coordinator`): from the delegations the bidders' builders made, through the transfer
  builder, the maximum-bid builder and the byte comparison, to a `finalize` that succeeds.
- **The indexer** (`EvidenceView`, `EvidenceSimulation`, `EvidenceStore`, `EvidenceSync`, `EvidenceMirror`,
  `EvidenceLoss`): the rounds table as a fold of the interleaved events of all configured markets and as a database that
  a crashing synchroniser fills page by page, until it mirrors every market's records, or exactly when it does not.
- **Delegations, audit and disclosure** (`Delegation.dfy`, `Disclosure.dfy`): the three witness builders, the auditor's
  decryption, and the disclosure circuit with its builder and its reader.
- **Recovering a balance** (`Replay.dfy`, `ConfidentialToken.dfy`, `History.dfy`, `DepositChoice.dfy`): the replay loops,
  the token they mirror, the paged and merged event history they read, and the deposit a bid makes.
- **The rate limiter** (`RateLimiter.dfy`, `RateBounds.dfy`).

## Hypotheses

Named predicates and parameters, never facts taken for granted:

- `commit`, `add`, `scalarMul`, Poseidon and the key derivations are parameters. Where a proof needs a law it requires
  it: `Commutes` (Diffie-Hellman), `Homomorphic`, `ZeroIsNeutral` and `Cancels` (commitments add), `Annihilates`,
  `BaseGeneratesCurve`, `KeysDetermine` and `PrimeOrder` (identity, curve, a base that generates the group, and no
  torsion below its order). `Inverts` says that a spender's reader inverts the two encryptions of a delegation.
- Binding is not required. Commitments hide, so that a second opening exists says nothing; results say instead "or
  these two openings, both at hand, are a `Collision`": a bidder's own opening against the one extracted from the
  proof (`Settlement.Collides`), or a recovered opening against the full history's
  (`ConfidentialToken.SameValueOrCollision`).
- SHA-256 digests are free constructors, so equal digests have equal preimages; a round's id holds its market's
  address. The 32-byte domain of the statement is an arbitrary hash function, and what it tells apart is stated "or
  these two rounds are a `DomainCollision`".
- `VerifierSound`: from every accepted proof the extractor reads a witness that satisfies the circuit for the very
  bytes that were verified. `VerifierComplete`: every proof made from a statement and a satisfying witness is
  accepted.
- A circuit reads an integer modulo the field's order (`Field.FieldIn`), `fieldIn` of `@ctd/sdk` included.
- A call carries the set of addresses that signed it. Nobody but the market signs as the market, and no round's issuer
  or bidder is the market's own address.
- Confidential-token and controller calls that QuietBook does not implement carry their answer, accepted or refused,
  as a parameter. RWA tokens move exactly what they are told, and only the market spends the market's balance.

## Findings

- `close_round` and `finalize` require no signature in the code, while `docs/architecture.md:124` says they do. The
  model follows the code: anyone may call them, and every result holds anyway.
- The limiter's capacity of 10,000 is not a bound when the empty string is a key: the eviction loop stops at it
  because an empty string is falsy. `EmptyKeyBreaksCapacity` gives the history; `CapacityKeptExactly` and
  `CapacityOverHistories` say exactly when the bound holds. `RateBound` is also sharper than twice the limit, and
  `RateBoundIsTight` shows that it is reached.
- The deposit choice of a bid is wrong for a wallet that holds enough, has received nothing of value, and has a
  receiving commitment that is not the identity, as after a transfer of zero: nothing is deposited, so nothing is
  merged, yet the proof adds the receiving randomness. `DepositChoiceExactly` is the exact condition and
  `PaymentOfNothingBlocksBid` a history that meets it.
- One frozen bidder, winner or not, whose delegation goes away after the close stops `finalize` for the whole round,
  since the statement names every frozen delegation. From every reachable closed round this is one legal step away
  (`OneBidderBlocksFinalize`); the lot is then the issuer's to recover.
- A disclosure witness is accepted exactly when the event's point and the requested recipient are on the curve, which
  the builder does not check (`BuiltDisclosureAccepted`).
- The maximum-bid builder checks its integers before they are read as field elements. A domain that is a nonzero
  multiple of the field's order, or a randomness that only opens its commitment unreduced, passes every check and
  yields a witness the circuit refuses, `fieldIn` read as above; `MaxBidWitness.Build` says exactly when
  (`SurvivesField`), and canonical values always survive.
- Reading the token's history stops at the first answer whose cursor is in the node's latest ledger. When that ledger has
  more events than a page, the later ones stay unread (`LastEventUnread`), and recovery then depends on the archive:
  the exact condition is `ReadingCovers`.
- A synchroniser that is cut short every time still finishes when each attempt may make two pages of writes and one more
  (`SyncPersistently`). Two pages are not always enough: a core log one event short of a page, from a node that gives no
  cursor for it, is stored again by every attempt and starves the other group (`TwoPagesMayNotSuffice`).
- `insertEvent` writes a row and then the rounds table. After a crash between the two the event counts as known, and the
  table becomes the view of the log without it. `TornInsertExactly` says exactly when that still mirrors the markets: a
  lost `round_created`, `round_settled` or `rwa_reclaimed` never does (`LostCreationLeavesNoRow` is a witness), a lost
  `winner_proven` always, a lost `round_opened` or `bid_withdrawn` once the round is no longer open, a lost
  `bid_registered` then or once the count has been zero, a lost `round_closed` once the round is settled, and a lost
  `rwa_funded` or `round_failed` once the lot is reclaimed.
- An amount word of the statement equals the browser's word exactly for non-negative amounts
  (`AmountFieldIsWordIffNonNegative`); the market only encodes a validated reserve.
- `cancel_round` publishes nothing, so the rounds table reads Draft for a cancelled round until its lot is reclaimed.

## Model

| member | source | states |
|---|---|---|
| `Field.DifferenceFitsIffOrdered` | circuits/max_bid/src/main.nr:82-87 | the 127-bit range check on a field difference of two amounts is the integer comparison, wrap-around included |
| `MaxBidCircuit.CircuitIsIntegerStatement` | circuits/max_bid/src/main.nr:10-87 | an assignment satisfies every assertion of the circuit exactly when, over the integers, all slots are opened or zero padding and the winner is the leftmost active maximum at or above the reserve and the one paid |
| `MaxBidCircuit.LeftmostMaximumUnique` | circuits/max_bid/src/main.nr:49-57 | a list has at most one leftmost maximum |
| `MaxBidCircuit.WinnerIsUnique` | circuits/max_bid/src/main.nr:33-61 | two accepted statements over the same commitments and flags name the same winner and the same bids, or exhibit a collision |
| `MaxBidWitness.Check` | packages/sdk/src/max-bid.ts:31-55 | on any integers the checks succeed only on parameters with a provable leftmost maximum, and each error tells what was wrong |
| `MaxBidWitness.FindWinner` | packages/sdk/src/max-bid.ts:35-40 | the loop refuses exactly out-of-range bids and otherwise finds the leftmost maximum |
| `MaxBidWitness.Pad` | packages/sdk/src/max-bid.ts:56-61 | padding keeps the entries and fills up to three |
| `MaxBidWitness.Build` | packages/sdk/src/max-bid.ts:30-86 | on any integers it succeeds exactly when some index is provable, and what it builds satisfies every circuit constraint, padding included, exactly when its integers survive being read as field elements |
| `MaxBidWitness.RefusedIsUnprovable` | packages/sdk/src/max-bid.ts:31-55 | no refusal is spurious: refused parameters have no provable winner |
| `MaxBidWitness.BuiltWitnessAccepted` | packages/sdk/src/max-bid.ts:49-83 | the padded witness of provable parameters is accepted exactly when a nonzero domain and every opening survive reduction |
| `MaxBidWitness.BuiltCommitmentsAreGiven` | packages/sdk/src/max-bid.ts:49-57 | commitments that came with the bids are the statement's own, slot by slot, and absent slots are the identity |
| `MaxBidWitness.CanonicalSurvives` | packages/sdk/src/max-bid.ts:61-83 | canonical domains and blindings always survive |
| `MaxBidWitness.FoldFindsLeftmostMax` | apps/indexer/src/sandbox.ts:329-332 | the coordinator's reduce finds the leftmost maximum of any number of openings |
| `MaxBidWitness.FoldAgreesWithBuilder` | apps/indexer/src/sandbox.ts:329-332 | the index sent to the chain is the one the builder proves |
| `Encoding.ToBytes32BE` | packages/sdk/src/payload.ts:12-21 | the shifting loop yields the 32-byte big-endian encoding, and refuses exactly values outside 256 bits |
| `Encoding.PointToBytes` | packages/sdk/src/payload.ts:23-30 | the identity is 64 zero bytes, any other point its two coordinate words |
| `Encoding.DecodeEncode` | packages/sdk/src/payload.ts:12-21 | decoding an encoded value gives it back, at every width |
| `Encoding.EncodeDecode` | packages/sdk/src/payload.ts:12-21 | encoding a decoded string gives it back, so encodings are canonical |
| `Encoding.PointRoundTrip` | packages/sdk/src/payload.ts:23-30 | a point survives its 64-byte encoding |
| `Encoding.U32FieldIsWord` | contracts/market/src/lib.rs:791-795 | the chain's u32 word is the browser's word of the same value |
| `Encoding.AmountFieldIsWordIffNonNegative` | contracts/market/src/lib.rs:797-801 | the chain's i128 word is the browser's word exactly for non-negative values, and 2^128 too large otherwise |
| `Statement.DomainIsCanonical` | contracts/market/src/lib.rs:737-789 | clearing the first byte keeps the domain below the field's modulus |
| `Statement.StatementDecodes` | contracts/market/src/lib.rs:737-789 | the statement is 448 bytes that decode word by word to the circuit's fourteen public inputs in parameter order |
| `Statement.StatementIsInjective` | contracts/market/src/lib.rs:737-789 | equal statements come from equal domains, commitments, active counts, reserves, indices and payments |
| `Statement.ProverBytesAgreeExactly` | apps/indexer/src/sandbox.ts:366-367 | the prover's public inputs, padded and concatenated, are the market's 448 bytes exactly when every coordinate word in them is canonical |
| `HonestProver.ProverMeetsChain` | contracts/market/src/lib.rs:737-789 | on every reachable closed round a coordinator with the openings of the frozen delegations builds exactly the public inputs the 448 bytes decode to, for the index of its own fold |
| `HonestProver.HonestProofVerifies` | contracts/market/src/lib.rs:454-493 | with a complete verifier the proof of the built witness passes the verification of finalize |
| `HonestProver.HonestSettlementSucceeds` | contracts/market/src/lib.rs:454-512 | in time, while the statement can be built and with a transfer the token accepts, an honest coordinator's finalize succeeds for the winner of its own fold |
| `Coordinator.TransferPaysBid` | apps/indexer/src/sandbox.ts:339-349 | the transfer of a whole recorded bid is built exactly when the salt rotates and its exchanges are not degenerate, and pays exactly that bid |
| `Coordinator.BuildersPrepare` | apps/indexer/src/sandbox.ts:327-365 | openings made by the delegation builder and a payment made by the transfer builder are exactly what the maximum-bid builder and the chain want: provable if and only if the winner meets the reserve |
| `Coordinator.BuiltTermsAreCanonical` | packages/sdk/src/payload.ts:23-30 | points the builders encode are canonical, so the byte comparison passes |
| `Coordinator.CoordinatorSettles` | apps/indexer/src/sandbox.ts:302-381 | in time, for builder-made delegations and a winner at or above the reserve, the coordinator's bytes equal the market's and its finalize succeeds |
| `MarketContract.Ledger.Invoke` | contracts/market/src/lib.rs:218-512 | a call changes the ledger as specified or, on any fault, not at all; either way, when nobody signs as the market, a market in order stays in order, moves only forward and keeps its surplus of every token |
| `MarketContract.Ledger.CreateRound` | contracts/market/src/lib.rs:531-572 | creates the round under the hash of counter and terms, or refuses the terms; its property is `CreateKeeps` |
| `MarketContract.Ledger.FundRound` | contracts/market/src/lib.rs:574-592 | moves exactly the lot from the issuer into escrow, once; its property is `FundKeeps` |
| `MarketContract.Ledger.RegisterController` | contracts/market/src/lib.rs:594-609 | registers a controller whose configuration matches the round before and after; its property is `RegisterKeeps` |
| `MarketContract.Ledger.OpenRound` | contracts/market/src/lib.rs:611-634 | opens a funded round with a registered controller before its bid deadline; its property is `OpenBookKeeps` |
| `MarketContract.Ledger.CreateAndOpenRound` | contracts/market/src/lib.rs:219-231 | the four steps in one call; its property is `CallIsSound` |
| `MarketContract.Ledger.RegisterBid` | contracts/market/src/lib.rs:659-695 | adds an eligible bidder with a delegation live through the settlement deadline at the next position; its properties are `AddBidKeeps` and `AdmittedExactly` |
| `MarketContract.Ledger.SubmitBid` | contracts/market/src/lib.rs:266-290 | optional deposit and merge, then the delegation, then the registration; its properties are `SubmitKeeps`, `SubmitDelegates`, `SubmitExactly` and `SubmittedBidIsStated` |
| `MarketContract.Ledger.WithdrawBid` | contracts/market/src/lib.rs:292-324 | revokes and deactivates one active bid and decrements the count; its properties are `WithdrawKeeps`, `WithdrawRevokes`, `WithdrawExactly` and `WithdrawNeverUnderflows` |
| `MarketContract.Ledger.SweepBook` | contracts/market/src/lib.rs:326-386 | the loop of close_round keeps and drops exactly what the filters say, with one withdrawal event a dropped bid |
| `MarketContract.Ledger.CloseRound` | contracts/market/src/lib.rs:326-386 | freezes the filtered list with its count and hash; its properties are `CloseKeeps` and `CloseFiltersBook` |
| `MarketContract.Ledger.CancelRound` | contracts/market/src/lib.rs:388-394 | cancels a draft; its property is `CancelKeeps` |
| `MarketContract.Ledger.MarkNoSale` | contracts/market/src/lib.rs:396-414 | fails a closed round that is empty or past its settlement deadline; its properties are `NoSaleKeeps` and `FinalizeExcludesNoSale` |
| `MarketContract.Ledger.ReclaimRwa` | contracts/market/src/lib.rs:416-441 | returns the lot of a failed or cancelled round to its issuer, once; its properties are `ReclaimKeeps` and `ReclaimPaysIssuer` |
| `MarketContract.Ledger.Finalize` | contracts/market/src/lib.rs:454-512 | verifies the statement, pays through the controller, moves the lot and records the winner; its properties are `FinalizedKeeps`, `SettlementIsCorrect` and `SettlementMovesLotAndPayment` |
| `MarketContract.Ledger.AppendCommitments` | contracts/market/src/lib.rs:737-789 | the slot loop appends one delegated commitment a frozen bidder and zero padding, with the source's faults |
| `MarketContract.Ledger.MaxBidPublicInputs` | contracts/market/src/lib.rs:737-789 | the byte buffer is the statement of the round's terms; its properties are `FinalizedStatement`, `StatementBindsList` and `StatementExactly` |
| `MarketContract.Ledger.ControllerRegister` | contracts/round-controller/src/lib.rs:49-60 | flips the one-shot flag for the market only |
| `MarketContract.Ledger.ControllerSettle` | contracts/round-controller/src/lib.rs:62-81 | forwards one transfer to the issuer, for the market only, when registered and before the deadline |
| `MarketContract.SweepStep` | contracts/market/src/lib.rs:326-386 | how one more entry of the book grows the kept list, the dropped list, the records and the events |
| `MarketContract.SlotStep` | contracts/market/src/lib.rs:737-789 | one more slot of the statement: its bytes, or the fault any longer book also gives |
| `MarketSteps.CreateKeeps` | contracts/market/src/lib.rs:531-572 | all rounds stay in order and every surplus unchanged, so a new round owes nothing, and its id was unused |
| `MarketSteps.FundKeeps` | contracts/market/src/lib.rs:574-592 | all rounds stay in order and every surplus unchanged, so the lot is owed from the moment it arrives |
| `MarketSteps.RegisterKeeps` | contracts/market/src/lib.rs:594-609 | all rounds stay in order, and no controller a round relies on is lost or reconfigured |
| `MarketSteps.OpenBookKeeps` | contracts/market/src/lib.rs:611-634 | all rounds stay in order: what is open is escrowed and has its own registered controller |
| `MarketSteps.AddBidKeeps` | contracts/market/src/lib.rs:659-695 | the book stays in order: at most three distinct bidders, each at its position, the count equal to the active records |
| `MarketSteps.SubmitKeeps` | contracts/market/src/lib.rs:266-290 | the same for a bid that deposits and delegates on the way |
| `MarketSteps.WithdrawKeeps` | contracts/market/src/lib.rs:292-324 | positions stay as they are and the count stays equal to the active records |
| `MarketSteps.CloseKeeps` | contracts/market/src/lib.rs:326-386 | all rounds stay in order, the frozen list active and of the stored count |
| `MarketSteps.CancelKeeps` | contracts/market/src/lib.rs:388-394 | a cancelled draft still owes the lot it holds |
| `MarketSteps.NoSaleKeeps` | contracts/market/src/lib.rs:396-414 | a failed round still owes the lot it holds |
| `MarketSteps.ReclaimKeeps` | contracts/market/src/lib.rs:416-441 | what leaves the market is exactly what the round ceases to owe, in every token |
| `MarketSteps.FinalizedKeeps` | contracts/market/src/lib.rs:454-512 | what leaves the market is exactly what the round ceases to owe, in every token |
| `MarketSteps.CallIsSound` | contracts/market/src/lib.rs:218-512 | every successful call keeps all rounds in order and the market's surplus of every token unchanged |
| `MarketSteps.WithdrawNeverUnderflows` | contracts/market/src/lib.rs:292-324 | the decrement of the bidder count never underflows |
| `MarketSteps.KeptInOrder` | contracts/market/src/lib.rs:326-386 | the kept bidders stay in registration order |
| `MarketRuns.EscrowConserved` | contracts/market/src/lib.rs:416-512 | over every run and in every token the market holds exactly what it owes to all rounds together plus what it started with and was given |
| `MarketRuns.ReachableIsSolvent` | contracts/market/src/lib.rs:416-512 | every reachable market is in order and owes no more than it holds |
| `MarketRuns.HeldLotIsThere` | contracts/market/src/lib.rs:416-441 | a held lot is covered by the balance whatever the other rounds did |
| `MarketRuns.NewRoundNeverCollides` | contracts/market/src/lib.rs:531-572 | a new round's id is unused on every run |
| `MarketRuns.InvocationKeeps` | contracts/market/src/lib.rs:218-512 | every call, carried out or rolled back, whoever but the market signed it, leaves the market in order, moves rounds only forward and keeps its surplus of every token |
| `SharedLedger.OtherMarketIsEnvironment` | apps/indexer/src/config.ts:27-31 | a call of one market is, to any other market on the ledger that did not sign it, a legal step of its environment |
| `SharedLedger.MarketsShareLedger` | apps/indexer/src/config.ts:27-31 | however the calls of several markets on one ledger interleave, each market stays in a state its contract reaches on its own |
| `MarketRuns.FinalizeExcludesNoSale` | contracts/market/src/lib.rs:396-512 | finalize and mark_no_sale are never both enabled, whoever signs |
| `MarketAccess.AdmittedExactly` | contracts/market/src/lib.rs:636-695 | a bid is registered exactly for an unregistered, eligible bidder in time and within capacity, with a delegation live through the settlement deadline |
| `MarketAccess.SubmitDelegates` | contracts/market/src/lib.rs:266-290 | a submitted bid delegates exactly the commitment it carries, until the settlement deadline, and touches no other delegation |
| `MarketAccess.WithdrawRevokes` | contracts/market/src/lib.rs:292-324 | a withdrawn bid is inactive and its delegation gone; every other bid and delegation stays |
| `MarketAccess.ControllerSettlesExactly` | contracts/round-controller/src/lib.rs:62-81 | on any ledger the controller forwards exactly one transfer, for its own market, once registered, up to its own deadline, as the token accepts |
| `MarketAccess.ControllerRegistersOnce` | contracts/round-controller/src/lib.rs:49-60 | on any ledger the controller registers once, for its own market only |
| `MarketAccess.BidsMove` | contracts/market/src/lib.rs:233-386 | a bid is registered and withdrawn only with its bidder's signature, and otherwise ends only at the close for want of a live delegation |
| `MarketAccess.DelegationsMove` | contracts/market/src/lib.rs:233-512 | a delegation changes only by its bidder's own bid or withdrawal, or as the winner's at settlement |
| `MarketAccess.SubmittedBidIsStated` | contracts/market/src/lib.rs:266-386 | along every run that leaves its delegation alone, a submitted bid is on the closed round's list and the statement carries the very commitment that was submitted |
| `MarketEnabling.CallsExactly` | contracts/market/src/lib.rs:218-512 | on every reachable market each call succeeds exactly when those who must have signed and the round, the clock and the tokens are as it needs them; guards that never fail are not among the conditions |
| `MarketEnabling.CreateAndOpenExactly` | contracts/market/src/lib.rs:219-231 | a round is created, funded and opened in one call exactly when its terms, its issuer's balance and its controller are ready |
| `MarketEnabling.SubmitExactly` | contracts/market/src/lib.rs:266-290 | a bid is submitted exactly when its bidder is admissible and the token accepts deposit and delegation |
| `MarketEnabling.WithdrawExactly` | contracts/market/src/lib.rs:292-324 | a bid is withdrawn exactly while it is active and the window open |
| `MarketEnabling.CloseExactly` | contracts/market/src/lib.rs:326-386 | closing an open round needs only its deadline to have passed |
| `MarketEnabling.ReclaimExactly` | contracts/market/src/lib.rs:416-441 | a held lot of a failed or cancelled round can always be reclaimed |
| `MarketEnabling.SignaturesExactly` | contracts/market/src/lib.rs:218-512 | issuer calls need the issuer's signature, bid calls the bidder's, and close_round and finalize nobody's |
| `MarketLog.LogTellsTheTruth` | contracts/market/src/lib.rs:218-512 | on every reachable market each event ever published is borne out by the ledger: amounts, indices, counts, hashes, winners and reasons |
| `MarketLog.CounterCountsRounds` | contracts/market/src/lib.rs:531-572 | the counter hashed into ids is the number of rounds |
| `MarketTransitions.StatusTransitions` | contracts/market/src/lib.rs:326-512 | the whole table of status moves: which call makes which move past which guard, the two reasons of mark_no_sale included, and no other call moves anything |
| `MarketRecovery.RecoveryStep` | contracts/market/src/lib.rs:326-441 | past the deadline the issuer's next call succeeds and brings the lot one call closer, or pays exactly the lot |
| `MarketRecovery.InterferenceIsHarmless` | contracts/market/src/lib.rs:326-441 | no step of anyone takes an overdue lot away or puts it further from the issuer |
| `MarketRecovery.LotIsNeverLocked` | contracts/market/src/lib.rs:326-441 | every legal run with at most three issuer calls in it gives the lot back, whatever is interleaved |
| `MarketRecovery.RecoverySchedule` | contracts/market/src/lib.rs:326-441 | a schedule of at most three calls signed by the issuer alone that pays it exactly the lot |
| `MarketRecovery.ReclaimPaysIssuer` | contracts/market/src/lib.rs:416-441 | only reclaim_rwa gives a lot back, signed by the issuer and to the issuer, exactly once and in full |
| `Settlement.OpenBookInvariant` | contracts/market/src/lib.rs:636-695 | while open: at most three distinct bidders, every record at its own position, the count equal to the active records |
| `Settlement.CloseFiltersBook` | contracts/market/src/lib.rs:326-386 | closing leaves exactly the active bidders live through the settlement deadline, in order, with everyone else inactive and the list hashed |
| `Settlement.FrozenListIsFinal` | contracts/market/src/lib.rs:326-386 | a frozen list never changes again on any run |
| `Settlement.FinalizedStatement` | contracts/market/src/lib.rs:454-512 | what finalize verified is the canonical statement about the frozen list's delegated commitments, whose first word is the hash of market, round, terms and that list, its first byte cleared |
| `Settlement.StatementBindsList` | contracts/market/src/lib.rs:737-789 | equal bytes for closed rounds of any two reachable markets come from the same market, round, terms, frozen list, index and payment, unless the two are a collision of the domain hash in hand |
| `Settlement.SettlementIsCorrect` | contracts/market/src/lib.rs:454-512 | with a sound verifier the winner is the lowest-index highest bid of the frozen list, at or above the reserve, and the transfer commitment opens to exactly that bid under the extracted blinding, unless a bidder's opening and the extracted one of its slot are a collision in hand |
| `Settlement.SettlementMovesLotAndPayment` | contracts/market/src/lib.rs:454-512 | exactly the lot moves to that bidder and the controller asks the token, once, to move that bidder's delegation to the issuer |
| `Settlement.StatementExactly` | contracts/market/src/lib.rs:737-789 | the statement of a closed round is built exactly for a frozen index, a decodable transfer, and while every frozen bidder is still delegated |
| `Settlement.FinalizeExactly` | contracts/market/src/lib.rs:454-512 | on every reachable closed round finalize succeeds exactly in time, for a frozen index, while every frozen bidder is delegated, with a verified proof and a transfer the token accepts: the controller and the escrow never stand in the way |
| `Settlement.OneBidderBlocksFinalize` | contracts/market/src/lib.rs:737-789 | from every reachable closed round, taking away any one frozen bidder's delegation is a legal step after which every finalize fails |
| `EvidenceStore.EvidenceDatabase.InsertEvent` | apps/indexer/src/db.ts:79-101 | a known id changes nothing; a new event is stored and applied to the table, when both statements run |
| `EvidenceStore.TornInsertForgets` | apps/indexer/src/db.ts:79-101 | after a crash between the two statements, resuming anywhere before it leaves exactly the view of the log without that event |
| `EvidenceLoss.TornInsertExactly` | apps/indexer/src/db.ts:79-163 | over logs of any reachable markets, the table finished after such a crash mirrors them if and only if the event was not a round's or later events made up for the lost update, event type by event type |
| `EvidenceLoss.LostUpdateMirrors` | apps/indexer/src/db.ts:103-163 | the same for the view: without one event of an interleaved log it mirrors the markets exactly when the update is absorbed |
| `EvidenceLoss.LostCreationLeavesNoRow` | apps/indexer/src/db.ts:103-118 | a reachable market whose first round has no row after a crash at its creation |
| `EvidenceStore.EvidenceDatabase.ApplyRoundEvent` | apps/indexer/src/db.ts:103-163 | the table statement of each event type, with the publishing contract as the new row's market |
| `EvidenceStore.EvidenceDatabase.SetSyncState` | apps/indexer/src/db.ts:165-174 | replaces one source's progress record |
| `EvidenceSimulation.TableSimulatesContract` | apps/indexer/src/db.ts:103-163 | in every reachable state the table holds one row for exactly the existing rounds, under the market's address and agreeing with the contract's record; every event met a row it fits, so the clamp at zero has never fired |
| `EvidenceSimulation.SettlingEvents` | contracts/market/src/lib.rs:494-511 | winner_proven followed by round_settled leads the row from Closed to the settled record |
| `EvidenceSimulation.ClosingEvents` | contracts/market/src/lib.rs:326-386 | the withdrawals of the dropped bids and round_closed lead the row to the closed record |
| `EvidenceSimulation.OneExitPerLot` | contracts/market/src/lib.rs:416-512 | over every run a lot leaves the market at most once, to the winner or the issuer, never both |
| `EvidenceView.MarketsDoNotInterfere` | apps/indexer/src/db.ts:103-163 | in any interleaving of several markets' events a round's row is what its own market's events alone make it |
| `EvidenceView.GuardedTogether` | apps/indexer/src/db.ts:103-163 | if each market's events meet rows they fit, they do in every interleaving |
| `EvidenceStore.ResumeIsIdempotent` | apps/indexer/src/db.ts:79-101 | going again through any stretch of a log that starts no later than what is stored adds only what is new |
| `EvidenceStore.GroupsCommute` | apps/indexer/src/sync.ts:9-28 | any prefixes of the two contract groups commute |
| `EvidenceStore.OnePassIsView` | apps/indexer/src/db.ts:79-163 | one pass over any prefix of a log leaves the fold of its round events |
| `EvidenceStore.ArchiveHoldsLog` | apps/indexer/src/db.ts:79-101 | the archive holds exactly the log's events, each under its id and as it came |
| `EvidenceView.RowsAreStamped` | apps/indexer/src/db.ts:103-163 | a row is stamped with the ledger of its round's last event |
| `EvidenceSync.StorePage` | apps/indexer/src/sync.ts:19-21 | however early the process dies inside a page, the database holds a prefix of each group; it dies exactly when its writes run out, and counts what was new |
| `EvidenceSync.SyncPage` | apps/indexer/src/sync.ts:14-26 | the page's own cursor and latest ledger are stored once every event of the page is, and nothing before, so the cursor never points past what is stored |
| `EvidenceSync.SyncSource` | apps/indexer/src/sync.ts:10-27 | paging keeps the stored cursor behind what is stored; against an exhaustive node it completes exactly when the events and cursors that remain can be written, at exactly that cost, and short of it every full page that can be written moves the cursor on |
| `EvidenceSync.SyncEvidenceStore` | apps/indexer/src/sync.ts:6-30 | both groups, one after the other, complete exactly when what remains of both can be written, and the number returned is the number of new events |
| `EvidenceSync.SyncRepeatedly` | apps/indexer/src/sync.ts:6-30 | after any attempts cut off at any write while the chain grew, a completed attempt leaves exactly what one uninterrupted pass leaves, and an attempt that may write everything once completes |
| `EvidenceSync.SyncPersistently` | apps/indexer/src/sync.ts:6-30 | once the chain stands still, more attempts than full pages are left, each allowed two pages of writes and one more, complete both logs, whatever earlier attempts left |
| `EvidenceSync.AttemptProgress` | apps/indexer/src/sync.ts:9-28 | an attempt that may write that much completes, cheaply resumable, or is at least one page further |
| `EvidenceSync.TwoPagesMayNotSuffice` | apps/indexer/src/sync.ts:9-28 | with only two pages of writes an attempt, no number of attempts need complete |
| `EvidenceSync.StarvationIsPossible` | apps/indexer/src/sync.ts:9-28 | the honest, exhaustive nodes for which that happens |
| `EvidenceMirror.HeldLogsMirror` | apps/indexer/src/config.ts:27-36 | a database that holds both logs, the core one interleaving any number of reachable markets, has one row for exactly their rounds, each under its market and mirroring its record |
| `EvidenceMirror.IndexMarkets` | apps/indexer/src/sync.ts:6-30 | the whole indexer: after any crashes, a completed synchronisation makes the rounds table mirror every configured market |
| `DelegationBuilders.SetSpenderMovesValue` | packages/sdk/src/spender.ts:75-134 | delegating succeeds exactly on amounts within the balance, and moves value without changing the total |
| `DelegationBuilders.RevokeMovesValue` | packages/sdk/src/spender.ts:162-214 | revoking succeeds exactly for the opening that key, spender and salt derive, and returns the allowance |
| `DelegationBuilders.TransferMovesValue` | packages/sdk/src/spender.ts:248-318 | spending succeeds exactly within the allowance, with the derived opening and a fresh salt, and splits its value |
| `DelegationBuilders.RevokeUndoesSetSpender` | packages/sdk/src/spender.ts:75-214 | revoking a fresh delegation always succeeds and restores the balance |
| `DelegationBuilders.SpenderReadsDelegation` | packages/sdk/src/spender.ts:89-131 | the named spender recovers key, allowance and blinding of a delegation from the published payload and its own secret |
| `DelegationBuilders.HolderReadsRemainder` | packages/sdk/src/spender.ts:262-316 | after a spender transfer the holder of the delegation's key reads what is left of it |
| `Audit.SetSpenderAudited` | packages/sdk/src/audit.ts:117-127 | the owner's auditor decrypts the allowance and the remaining balance of every delegation |
| `Audit.RevokeAudited` | packages/sdk/src/audit.ts:117-127 | and of every revocation |
| `Audit.OwnerChannelAudited` | packages/sdk/src/audit.ts:129-142 | the owner's auditor decrypts the amount and the remaining allowance of every spender transfer |
| `Audit.RecipientChannelAudited` | packages/sdk/src/audit.ts:129-142 | the recipient's auditor decrypts an opening of the very commitment that was paid |
| `Audit.ChannelsAgreeExactly` | packages/sdk/src/audit.ts:129-142 | the channels agree exactly when the two recipient masks are equal, as with coinciding auditor keys |
| `DelegationRuns.PerformKeepsStep` | packages/sdk/src/spender.ts:75-318 | the next operation's openings are always the ones the token stores and the keys derive |
| `DelegationRuns.RevokeAlwaysPossible` | packages/sdk/src/spender.ts:162-214 | an outstanding allowance can always be taken back in full |
| `DelegationRuns.RunsConserve` | packages/sdk/src/spender.ts:75-318 | over every run of delegations, spends and revocations, spendable plus allowance plus paid value is constant |
| `Disclosure.DecryptsExactly` | packages/sdk/src/disclosure.ts:40-55 | an incoming transfer opens to a value exactly when that value is in range and encrypts to its ciphertext |
| `Disclosure.RecipientOpensPayment` | packages/sdk/src/disclosure.ts:40-55 | the paid party recovers the opening of the commitment it was paid |
| `Disclosure.BuiltDisclosureAccepted` | packages/sdk/src/disclosure.ts:82-132 | a built witness satisfies the circuit exactly when both points are on the curve, and its public inputs are the verifier's list |
| `Disclosure.ListDeterminesStatement` | packages/sdk/src/disclosure.ts:134-159 | the verifier's thirteen values determine every public input of the circuit |
| `Disclosure.DisclosedIsProved` | packages/sdk/src/disclosure.ts:161-174 | the requester decrypts the value the proof speaks of |
| `Disclosure.ProvedIsDecrypted` | circuits/disclose_settlement/src/main.nr:29-50 | for any event, the value a proof speaks of is what any holder of the named viewing key decrypts, unless that exchange is degenerate |
| `Disclosure.DisclosureReadsEvent` | packages/sdk/src/disclosure.ts:134-174 | for any event and whoever made the proof, requester and viewing key decrypt the same value; each fails only on a degenerate exchange |
| `Disclosure.RequesterAlwaysReads` | circuits/disclose_settlement/src/main.nr:29-50 | on a curve of prime order an accepted proof is never degenerate: the requester always decrypts the value it speaks of |
| `Disclosure.ProvedIsPaid` | circuits/disclose_settlement/src/main.nr:29-50 | for an event of the transfer builder, that value is the amount paid |
| `Disclosure.DisclosureIsSound` | packages/sdk/src/disclosure.ts:134-174 | for an event of the transfer builder, whoever made an accepted proof, the requester decrypts exactly the amount paid, or a degenerate key exchange is reported |
| `Disclosure.DisclosureEndToEnd` | packages/sdk/src/disclosure.ts:82-174 | the paid party can always build an accepted disclosure from which the requester reads the amount paid |
| `BalanceReplay.RecoverSpendableOpening` | apps/web/src/sandbox.ts:552-645 | the spendable loop with its final commitment check |
| `BalanceReplay.RecoverReceivingOpening` | apps/web/src/sandbox.ts:478-518 | the receiving loop with its final commitment check |
| `BalanceReplay.ReceivingIsPending` | apps/web/src/sandbox.ts:478-645 | the receiving loop is the pending half of the spendable loop, failures included |
| `BalanceReplay.SuffixReplayIsFullReplay` | apps/web/src/sandbox.ts:571-640 | any suffix with a merge of the account and a later overwrite replays to what the whole history replays to |
| `BalanceReplay.UnnamedIsSkipped` | apps/web/src/sandbox.ts:571-640 | an event that does not name the account leaves its replay alone |
| `BalanceReplay.TopicsNameParties` | apps/indexer/src/server.ts:114-137 | an event's topics name its parties and nobody else |
| `BalanceReplay.PaymentsAdd` | apps/web/src/sandbox.ts:624-639 | a payment adds the value its ciphertext hides and its derived blinding, or nothing when the value is out of range |
| `BalanceReplay.ReplayAbortsExactly` | apps/web/src/sandbox.ts:571-640 | a replay aborts exactly on a payment whose key exchange with the account is the identity |
| `ConfidentialToken.CheckpointOpens` | apps/web/src/sandbox.ts:566-569 | the checkpoint an owner publishes decrypts to the opening it committed to |
| `ConfidentialToken.PaymentDecrypts` | apps/web/src/sandbox.ts:624-639 | the recipient decrypts exactly the value and blinding the sender committed to |
| `ConfidentialToken.PaymentOpens` | apps/web/src/sandbox.ts:624-639 | crediting that opening keeps the pending opening an opening of the receiving commitment |
| `ConfidentialToken.ActionTracked` | apps/web/src/sandbox.ts:529-550 | one token action and one replay step keep the replayed balance true, self-transfers included |
| `ConfidentialToken.ReplayTracksToken` | apps/web/src/sandbox.ts:552-645 | over every history the replay ends at the true amounts and opens both stored commitments |
| `ConfidentialToken.RecoverySucceeds` | apps/web/src/sandbox.ts:478-645 | both recoveries succeed with the true amounts on the full history |
| `ConfidentialToken.WrongHistoryIsHarmless` | apps/web/src/sandbox.ts:642-644 | a partial, foreign or forged event list under any key never yields a wrong spendable or receiving amount, unless the opening it yields and the one the full history yields are a collision in hand |
| `ConfidentialToken.BuiltCheckpointsReplay` | packages/sdk/src/spender.ts:75-214 | replaying what the builders publish recovers the builders' next opening |
| `EventHistory.ConfidentialEventsForWallet` | apps/indexer/src/server.ts:114-137 | the server's loop returns exactly the readable rows that name the account, in order |
| `EventHistory.ArchiveContents` | apps/indexer/src/server.ts:114-137 | the answer holds exactly the stored readable events that name the account |
| `EventHistory.ArchiveInOrder` | apps/indexer/src/server.ts:114-137 | rows are filtered one by one and keep their order |
| `EventHistory.WholeAnswerParsed` | apps/web/src/sandbox.ts:663-677 | an answer that parses throughout is stored whole |
| `EventHistory.HistoricalTokenEvents` | apps/web/src/sandbox.ts:661-696 | the cursor loop ends at the first answer that gives a reason to stop, has read exactly the window's events up to its cursor, every one of a ledger before the node's latest unless the cursor stood still, and returns them with the archive's readable rows, stored by id and sorted |
| `EventHistory.StoreArchive` | apps/web/src/sandbox.ts:663-680 | of an archive answer that fails to parse half way, the rows before the failure stay stored |
| `EventHistory.ReadingIsDetermined` | apps/web/src/sandbox.ts:683-694 | the requests of a reading are determined by the node: none reads on past a reason to stop |
| `EventHistory.LastEventUnread` | apps/web/src/sandbox.ts:693 | a node whose newest ledger has one event more than a page: every reading of it leaves that event out |
| `EventHistory.EarlierLedgersRead` | apps/web/src/sandbox.ts:693 | when reading stops at the latest ledger, every event of an earlier ledger was read |
| `EventHistory.ReadingCovers` | apps/web/src/sandbox.ts:661-696 | a reading covers the account's events exactly when the archive holds those of them that are not in the window up to the last cursor |
| `EventHistory.StoreReplaces` | apps/web/src/sandbox.ts:670-688 | an event stored later replaces the one of the same id, whatever that was |
| `EventHistory.SortOrders` | apps/web/src/sandbox.ts:695 | sorting distinct ids gives the same events in chain order |
| `EventHistory.MergedIsGathered` | apps/web/src/sandbox.ts:661-696 | the merged history is the chain log with some events left out, none of which names the account |
| `EventHistory.MergedHistoryReplaysAlike` | apps/web/src/sandbox.ts:661-696 | archived rows and window that cover the account's events replay as the whole chain log, in both loops |
| `EventHistory.WindowAloneSuffices` | apps/web/src/sandbox.ts:678-680 | without the archive a covering window replays as the whole log |
| `EventHistory.CoveredHistoryRecovers` | apps/web/src/sandbox.ts:552-696 | end to end, a covered merged history recovers the token's true amounts |
| `DepositChoice.ReconcilePublicDeposits` | apps/web/src/sandbox.ts:453-459 | the loop finds the least number of whole deposits, up to ten, whose sum with the value opens the commitment, fails exactly when none does, and adds none to a value that opens it |
| `DepositChoice.DepositTopsUp` | apps/web/src/sandbox.ts:867-869 | a deposit tops up to the fixed amount and no further, but for one stroop that forces a merge |
| `DepositChoice.DepositChoiceExactly` | apps/web/src/sandbox.ts:866-870 | the commitment after the optional deposit and merge is the one the proof speaks of exactly outside the blinded-dust family |
| `DepositChoice.UnblindedChoiceIsRight` | apps/web/src/sandbox.ts:866-887 | with zero receiving randomness whenever nothing was received the choice is always right |
| `DepositChoice.BidLeavesRemainder` | apps/web/src/sandbox.ts:727-887 | a bid within the limits leaves a non-negative remainder, and the builder refuses only for size or a degenerate key |
| `DepositChoice.PaymentOfNothingBlocksBid` | apps/web/src/sandbox.ts:866-887 | a reachable history whose recovered openings lead to a proof about the wrong commitment |
| `RateLimiting.RateLimiter.Consume` | apps/indexer/src/rate-limit.ts:13-25 | one call counts, prunes, opens or charges a window, and answers, as specified; its properties are `FixedWindows`, `RateBound` and `CapacityKeptExactly` |
| `RateLimiting.RateLimiter.Prune` | apps/indexer/src/rate-limit.ts:27-36 | drops the expired buckets, then the oldest down to capacity, stopping at an empty key |
| `RateLimiting.LookupUnexpired` | apps/indexer/src/rate-limit.ts:28-30 | sweeping loses nothing that is still live |
| `RateBounds.CapacityKeptExactly` | apps/indexer/src/rate-limit.ts:13-36 | one call keeps the map within 10,000 entries exactly unless a full live map led by the empty key meets a new key |
| `RateBounds.CapacityOverHistories` | apps/indexer/src/rate-limit.ts:13-36 | over a whole history the bound holds exactly while no call overflows |
| `RateBounds.NamedKeysStayWithinCapacity` | apps/indexer/src/rate-limit.ts:13-36 | a limiter never asked about the empty string never exceeds its capacity |
| `RateBounds.EmptyKeyBreaksCapacity` | apps/indexer/src/rate-limit.ts:31-35 | the history that reaches 10,001 entries |
| `RateBounds.Isolated` | apps/indexer/src/rate-limit.ts:13-36 | a key that is never evicted is answered, call by call, as its own calls alone demand, whatever other callers do |
| `RateBounds.FixedWindows` | apps/indexer/src/rate-limit.ts:13-25 | windows are told from call times alone: a call is allowed exactly if it opens a window or is among the first limit calls of one, and a refused caller is told the rounded-up time to the end of that window, which refusals do not move |
| `RateBounds.SweptRegularly` | apps/indexer/src/rate-limit.ts:13-36 | every 256th call, and any at capacity, leaves no ended bucket but the caller's own |
| `RateBounds.OperationsCount` | apps/indexer/src/rate-limit.ts:13-16 | the limiter counts its calls |
| `RateBounds.RateBound` | apps/indexer/src/rate-limit.ts:13-25 | in any history the limiter can have, any half-open interval of one window admits at most twice the limit less one of a never evicted key |
| `RateBounds.RateBoundIsTight` | apps/indexer/src/rate-limit.ts:13-25 | a history that reaches the bound, for every limit and every window of at least two milliseconds |
| `RateBounds.RoomNeverEvicts` | apps/indexer/src/rate-limit.ts:27-36 | while the map has room no live key is ever evicted |
| `RateBounds.RetryAfterIsLeast` | apps/indexer/src/rate-limit.ts:24 | the seconds a refused caller is told are the least whole number that reaches the end of its window |
| `RateBounds.WaitingIsEnough` | apps/indexer/src/rate-limit.ts:13-25 | a refused caller that waits the delta-seconds it was told (section 10.2.3 of RFC 9110) is admitted next time, whatever others do in between |

## Left out

- UltraHonk, SHA-256, Poseidon2, Grumpkin arithmetic, XDR and the `@ctd/sdk` package: not part of this model beyond the parameters above; hexadecimal and XDR parsing is taken as reading the number.
- The upstream token's circuits and their full lists of private and public inputs: the builders return the commitments, ciphertexts and openings, not the whole input map handed to the prover.
- The upstream token inside a market call: deposit, merge and revocation are accept-or-refuse parameters there; their effect on commitments is modelled in `ConfidentialToken`.
- `is_spender` is membership in the delegation map; expiry is the environment removing the entry.
- Integer widths of balances and counters: i128 balances, the u64 round counter and the limiter's doubles are unbounded here; the encodings model u32 and i128 exactly, and the u32 bidder count models its underflow.
- Storage lifetimes and archival of contract data.
- Controllers other than the repository's own contract: a controller's registered flag, once set by the market, is not undone.
- The iteration order of a JavaScript `Map` is kept (limiter entries and stored events are sequences); event ids are their ranks, so string comparison of ids is comparison of numbers.
- `MarketContract.Ledger.SubmitBid`: deposit and merge are accepted or refused and have no further effect on this ledger; what they do to the bidder's commitments, and when the proof then speaks of the right one, is `DepositChoice.Prepared` and `DepositChoiceExactly`.
- `EvidenceStore.EvidenceDatabase.InsertEvent`: runs both of its statements; what one crash between them does to every later pass is `TornInsertForgets` and `TornInsertExactly`; the synchroniser's own results count the two as one write.
- `EvidenceSync.SyncSource`: cursors are positions in a group's log; the node's answers are stretches of that log.
- `ConfidentialToken.RecoverySucceeds`: one key epoch; events of an earlier key are skipped by the replay but no history with a key change is modelled.
- `ConfidentialToken.ActionTracked`: the amount taken back by a revocation is a parameter of the action; that it equals what was delegated is proved in `DelegationRuns`.
- `LiveSandbox` persistence under concurrency, the sandbox's setup, its waits and receipts, and recording of openings; what `settle` computes is `Coordinator`.
- `SandboxAuth`: signed challenges and session tokens in front of the sandbox's HTTP routes. It decides who may call a route; the balances, witnesses and histories modelled here are the same for whoever calls.
- `EligibilityPolicy`: one flag an account, set by an administrator. The market reads it as a set that the environment may change at any step, so every result holds for any policy.
- The demonstration RWA token: the standard token with a minting administrator. The market uses the standard transfer and balance only; minting is the environment raising balances.
- The maximum-bid verifier's wrapper: stores a verification key and calls UltraHonk. It is the oracle `verify`, about which only `VerifierSound` and `VerifierComplete` are ever supposed.
- Configuration and product modules: addresses, limits and the encoding of call arguments; the entry points are modelled on decoded arguments.
- The React interface, wallet adapters, HTTP routing, file vault and deployment scripts: presentation and plumbing.
