/** Entities of the mint session ledger and of the wallet history it reads. */
module MintTypes {

  datatype Option<+T> = None | Some(value: T)

  /** Block hashes, transaction hashes, owners and session ids are opaque identities. */
  type Hash = nat
  type Id = nat

  datatype Block = Block(height: nat, hash: Hash)

  /** Names one extrinsic of one chain: height, block hash and position in the body. */
  datatype Position = Position(height: nat, hash: Hash, index: nat)

  /** Blocks after its birth block in which a payment is valid, plus one. */
  const ERA_PERIOD: nat := 256
  const LOTS: nat := 1000

  datatype Status =
    | Reserved | Signed | Uncertain | Sent | Included
    | Minted | LostRace | Failed | Anomaly
    | Cancelled | Dead | Expired | Replaced | Settled

  /** A reservation and what became of it. */
  datatype Attempt = Attempt(
    n: nat,
    status: Status,
    lot: nat,
    fee: nat,
    anchor: Position,
    minted: nat,
    held: nat,
    birth: Block,
    nonce: nat,
    networkFee: nat,
    reserveNetwork: nat,
    reserveProtocol: nat,
    hash: Option<Hash>,
    inclusion: Option<Position>,
    finalized: bool,
    doubt: bool)

  datatype Terms = Terms(
    asset: Id,
    lotAmount: nat,
    maxLots: nat,
    maxAttempts: nat,
    maxFeePerLot: nat,
    maxSpend: nat)

  datatype EndReason =
    | Completed | Stopped | UserCancelled | Deadline | Locked | AccountChanged | NetworkChanged | Reset
    | WindowGone | Disconnected | Revoked | Restarted | Update | RaceLost | AttemptLimit | SpendLimit
    | FeeLimit | SoldOut | PaymentFailed | PaymentAnomaly | Reorg | AccountActivity | Unverified
    | InsufficientFunds | Unavailable | Capacity

  datatype Record = Record(
    id: Id,
    owner: Id,
    genesis: Id,
    terms: Terms,
    ticket: nat,
    margin: nat,
    tip: nat,
    deadline: int,
    ended: bool,
    reason: Option<EndReason>,
    endedAt: Option<int>,
    used: nat,
    reorganized: bool,
    attempts: seq<Attempt>)

  datatype JournalStatus =
    | SignedNotSubmitted | BroadcastUncertain | Submitted
    | HistoryPending | HistoryIncluded | HistoryUnknown | IndexerUnavailable
    | HistoryFinalized | HistoryExpired | CancelledBeforeBroadcast

  /** A wallet history entry. Height, native success and acceptance are unknown until history reports a block. */
  datatype Line = Line(
    hash: Hash,
    owner: Id,
    genesis: Id,
    nonce: nat,
    status: JournalStatus,
    session: Option<Id>,
    height: Option<nat>,
    nativeSuccess: Option<bool>,
    accepted: Option<bool>)

  /** The next lot an attested block offers, and the right that buys it. */
  datatype NextLot = NextLot(asset: Id, knownProfile: bool, lot: nat, amount: nat, fee: nat, anchor: Position)

  /** What both witnesses attest about a progressive token at `block`. */
  datatype AttestedAsset = AttestedAsset(
    block: Block,
    parent: Hash,
    knownProfile: bool,
    cap: nat,
    lotSize: nat,
    minted: nat,
    right: Option<Position>,
    next: Option<NextLot>,
    held: nat)

  predicate IsUnresolved(a: Attempt) {
    a.status in {Reserved, Signed, Uncertain, Sent, Included}
  }

  /** No witness attests these: the node alone reported them. */
  predicate IsNodeVerdict(status: Status) {
    status in {Failed, Dead, Expired, Replaced}
  }

  predicate CarriesInclusion(status: Status) {
    status in {Included, Minted, LostRace, Failed, Anomaly}
  }

  /** The verdicts after which a session may sign again. */
  predicate AdmitsSuccessor(status: Status) {
    status == Minted || status == LostRace
  }

  predicate IsFinal(status: JournalStatus) {
    status in {HistoryFinalized, HistoryExpired, CancelledBeforeBroadcast}
  }

  predicate NeverRan(status: JournalStatus) {
    status in {HistoryExpired, CancelledBeforeBroadcast}
  }

  /** Signed, and neither cancelled nor still held back: some chain may hold it. */
  predicate MayHaveRun(a: Attempt) {
    a.hash.Some? && a.status !in {Reserved, Signed, Cancelled}
  }

  /** `at` is above the birth block of `a` and no higher than its era reaches. */
  predicate InWindow(a: Attempt, at: Position) {
    a.birth.height < at.height <= a.birth.height + ERA_PERIOD - 1
  }

  function BlockOf(p: Position): Block {
    Block(p.height, p.hash)
  }

  /** How many signatures the terms allow beyond one per lot. */
  function Retries(t: Terms): int {
    t.maxAttempts - t.maxLots
  }
}
