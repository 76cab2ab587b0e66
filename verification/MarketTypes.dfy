// contracts/market/src/lib.rs and contracts/round-controller/src/lib.rs: the
// entities, and the part of the ledger the two contracts read and write.
module MarketTypes {
  import opened Prelude
  import opened Encoding

  type Address = nat

  type Proof = Bytes

  datatype RoundStatus = Draft | Open | Closed | Settled | Failed | Cancelled

  datatype RoundConfig = RoundConfig(
    issuer: Address,
    rwaToken: Address,
    rwaLot: I128,
    confidentialToken: Address,
    controller: Address,
    eligibilityPolicy: Address,
    maxBidVerifier: Address,
    auditorId: U32,
    reservePublic: I128,
    bidDeadline: nat,
    settlementDeadline: nat)

  /** SHA-256 of an XDR value, as a free constructor: equal digests have equal preimages. */
  datatype Digest =
    | RoundDigest(contract: Address, sequence: nat, config: RoundConfig)
    | BookDigest(roundId: Digest, bidders: seq<Address>)
    | ProofDigest(proof: Proof)

  type RoundId = Digest

  datatype Round = Round(
    id: RoundId,
    config: RoundConfig,
    status: RoundStatus,
    bidderCount: nat,
    participantSetHash: Option<Digest>,
    winner: Option<Address>,
    proofHash: Option<Digest>,
    rwaEscrowed: bool,
    rwaReclaimed: bool)

  datatype BidRegistration = BidRegistration(
    roundId: RoundId,
    bidder: Address,
    registrationIndex: nat,
    registeredLedger: nat,
    active: bool)

  /** A bidder's delegation to a controller inside one confidential token. */
  datatype Delegation = Delegation(allowanceCommitment: PointBytes, liveUntil: nat)

  /** The instance storage of one deployed round controller. */
  datatype Controller = Controller(market: Address, token: Address, issuer: Address, deadline: nat, registered: bool)

  /** SpenderTransferData: the decoded payload, and whether the token's own verifier accepts its proof. */
  datatype TransferData = Malformed | Transfer(cTransfer: PointBytes, nextAllowance: PointBytes, accepted: bool)

  /** What a bidder attaches to submit_bid, and whether the token accepts each call. */
  datatype SpenderData = SpenderData(depositAccepted: bool, spenderAccepted: bool, allowance: PointBytes)

  datatype Event =
    | RoundCreated(roundId: RoundId, issuer: Address, config: RoundConfig)
    | RwaFunded(roundId: RoundId, amount: int)
    | RoundOpened(roundId: RoundId)
    | BidRegistered(roundId: RoundId, bidder: Address, registrationIndex: nat)
    | BidWithdrawn(roundId: RoundId, bidder: Address)
    | RoundClosed(roundId: RoundId, bidderCount: nat, participantSetHash: Digest)
    | RoundFailed(roundId: RoundId, reasonCode: nat)
    | RwaReclaimed(roundId: RoundId, issuer: Address, amount: int)
    | WinnerProven(roundId: RoundId, winner: Address, proofHash: Digest, participantSetHash: Digest)
    | RoundSettled(roundId: RoundId, winner: Address, proofHash: Digest)

  /** An event as the ledger records it, under the contract that published it. */
  datatype Logged = Logged(contract: Address, ledger: nat, event: Event)

  /** confidential_transfer_from as the token received it. */
  datatype Payment = Payment(token: Address, spender: Address, from: Address, to: Address, data: TransferData)

  datatype Fault =
    | InvalidRoundConfig
    | RoundNotFound
    | RoundNotDraft
    | RoundNotOpen
    | BidDeadlinePassed
    | BidDeadlineNotReached
    | InvestorNotAuthorized
    | DelegationNotFound
    | DelegationExpired
    | BidAlreadyRegistered
    | RwaEscrowInsufficient
    | RoundNotClosed
    | RwaAlreadyReclaimed
    | InvalidFailureTransition
    | BidCapacityReached
    | NoSaleNotAvailable
    | ControllerConfigurationMismatch
    | WinnerIndexInvalid
    | MaxProofInvalid
    | SettlementDeadlinePassed
    | RoundAlreadySettled
    | BidNotRegistered
    | BidNotActive
    | InvalidDepositAmount
    | AlreadyRegistered          // controller
    | NotRegistered              // controller
    | ControllerDeadlinePassed   // controller
    | Unauthorized               // require_auth
    | ContractMissing            // call to an address with no controller
    | TokenRefused               // a token call panicked
    | DecodeFailed               // malformed transfer payload
    | CountUnderflow             // u32 subtraction below zero

  datatype Call =
    | CreateRound(config: RoundConfig)
    | CreateAndOpenRound(config: RoundConfig, tokenAccepts: bool)
    | FundRound(id: RoundId)
    | RegisterController(id: RoundId, tokenAccepts: bool)
    | OpenRound(id: RoundId)
    | RegisterBid(id: RoundId, bidder: Address)
    | SubmitBid(id: RoundId, bidder: Address, depositAmount: I128, data: SpenderData)
    | WithdrawBid(id: RoundId, bidder: Address, revokeAccepted: bool)
    | CloseRound(id: RoundId)
    | CancelRound(id: RoundId)
    | MarkNoSale(id: RoundId)
    | ReclaimRwa(id: RoundId)
    | Finalize(id: RoundId, winnerIndex: U32, proof: Proof, transfer: TransferData)

  /** The hash and verifier the market calls out to. */
  datatype Oracle = Oracle(
    domainHash: (Address, RoundId, RoundConfig, Digest) -> Word,
    verify: (Address, Bytes, Proof) -> bool)

  type Balances = map<(Address, Address), nat>
  type Delegations = map<(Address, Address, Address), Delegation>
  type Bids = map<(RoundId, Address), BidRegistration>
  type Rounds = map<RoundId, Round>
  type Books = map<RoundId, seq<Address>>

  /** Everything a call of one market, at its own address, can read or write, between two calls. */
  datatype World = World(
    market: Address,
    ledger: nat,
    nextRound: nat,
    rounds: Rounds,
    books: Books,
    bids: Bids,
    balances: Balances,
    delegations: Delegations,
    controllers: map<Address, Controller>,
    eligible: set<(Address, Address, Address)>,
    events: seq<Logged>,
    payments: seq<Payment>)

  function Balance(balances: Balances, token: Address, holder: Address): nat {
    if (token, holder) in balances then balances[(token, holder)] else 0
  }

  /** Moves amount of a token; only meaningful when the sender holds it. */
  function Moved(balances: Balances, token: Address, from: Address, to: Address, amount: nat): Balances
    requires Balance(balances, token, from) >= amount
  {
    var debited := balances[(token, from) := Balance(balances, token, from) - amount];
    debited[(token, to) := Balance(debited, token, to) + amount]
  }
}
