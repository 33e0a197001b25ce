/** One mint session as a step system: its memory, its durable copy, and everything that may happen between
    two awaits of the controller, of other operations of the wallet, of history and of the browser. */
module SessionMachine {
  import opened MintTypes
  import opened SpendAccounting
  import opened StoredLedger
  import opened LedgerSoundness
  import opened SpendWorld
  import opened Classification
  import ChainSearch
  import SessionSnapshots

  const MIN_ATTEMPT_MS: int := 10_000
  const JOURNAL_CAPACITY: nat := 200

  // ---- Admission (P7-P10) ---------------------------------------------------------------------------

  datatype Account = Account(nonce: nat, free: nat, frozen: nat)

  /** A prepared lot payment: what the service answered for the attested lot. */
  datatype Quote = Quote(
    callMatches: bool,
    birth: Block,
    nonce: nat,
    platformFee: nat,
    nativeFee: nat,
    networkFee: nat,
    existentialDeposit: nat)

  datatype Decision = Finish(reason: EndReason) | Reorganized | AnotherPass | Retry | Reserve(attempt: Attempt)

  function DeadlineReason(rec: Record, unlockDeadline: int): EndReason {
    if rec.deadline >= unlockDeadline then Locked else Deadline
  }

  /** The quote asks for the call, fee and birth block that the attested lot `next` demands. */
  predicate QuoteMatches(q: Quote, next: NextLot, birth: Block) {
    q.callMatches && q.platformFee == next.fee && q.birth == birth
  }

  predicate OffersTheLot(t: Terms, v: AttestedAsset, next: NextLot) {
    && v.knownProfile && v.lotSize == t.lotAmount
    && next.asset == t.asset && next.knownProfile && next.amount == t.lotAmount
    && 1 <= next.lot <= LOTS
    && v.right == Some(next.anchor)
  }

  /** The session's limits, in P7's order; P3 asks the same before it attests anything. */
  function Limits(rec: Record, soldOut: bool, clock: int, unlockDeadline: int): Option<EndReason> {
    if CountStatus(rec.attempts, Minted) >= rec.terms.maxLots then Some(Completed)
    else if soldOut then Some(SoldOut)
    else if CountStatus(rec.attempts, LostRace) > Retries(rec.terms) then Some(RaceLost)
    else if rec.used >= rec.terms.maxAttempts then Some(AttemptLimit)
    else if clock >= rec.deadline - MIN_ATTEMPT_MS then Some(DeadlineReason(rec, unlockDeadline))
    else None
  }

  /** P7-P10 at the attested block `v.block`, with the counts current: the first limit, doubt or mismatch
      found, in order, or the attempt to reserve. `calls` is what the attestation budget leaves. */
  function Admission(rec: Record, v: AttestedAsset, account: Account, q: Quote, clock: int, unlockDeadline: int,
                     calls: nat): Decision
  {
    var t := rec.terms;
    var minted := CountStatus(rec.attempts, Minted);
    if Limits(rec, v.next.None?, clock, unlockDeadline).Some?
    then Finish(Limits(rec, v.next.None?, clock, unlockDeadline).value)
    else if rec.attempts != [] && v.block.height <= LastOf(rec).birth.height then Reorganized
    else if rec.attempts != [] && v.held != rec.attempts[0].held + t.lotAmount * minted then Finish(Unverified)
    else
      var next := v.next.value;
      if !OffersTheLot(t, v, next) then Finish(Unverified)
      else if next.fee > t.maxFeePerLot then Finish(FeeLimit)
      else if ProtocolBound(rec.attempts, rec.ticket) + next.fee + rec.ticket > t.maxSpend then Finish(SpendLimit)
      else if calls < 2 then AnotherPass
      else if rec.attempts != [] && account.nonce != LastOf(rec).nonce + 1 then Finish(AccountActivity)
      else if q.nativeFee != rec.ticket || !QuoteMatches(q, next, v.block) then Finish(Unverified)
      else if q.nonce > account.nonce then Finish(AccountActivity)
      else if q.nonce < account.nonce then Retry
      else
        var floor := if account.frozen > q.existentialDeposit then account.frozen else q.existentialDeposit;
        if account.free - floor < q.networkFee * rec.margin + rec.tip + rec.ticket + next.fee
        then Finish(InsufficientFunds)
        else Reserve(Attempt(
          |rec.attempts| + 1, Reserved, next.lot, next.fee, next.anchor, v.minted, v.held, v.block, q.nonce,
          q.networkFee + rec.tip, q.networkFee * rec.margin + rec.tip, next.fee + rec.ticket,
          None, None, false, false))
  }

  function Inclusions(attempts: seq<Attempt>): seq<Block> {
    if attempts == [] then []
    else
      var k := |attempts| - 1;
      Inclusions(attempts[..k])
      + if attempts[k].inclusion.Some? then [BlockOf(attempts[k].inclusion.value)] else []
  }

  // ---- State ----------------------------------------------------------------------------------------

  /** What one write of the wallet stores: the ledger's record and the history. */
  datatype Snap = Snap(rec: Record, lines: seq<Line>)

  /** The write the controller awaits: none, its place in the queue, or how it settled. */
  datatype Wait = NoWait | Queued(place: nat) | Saved | NotSaved

  datatype Phase =
    | Passing           // between passes and through P1-P9
    | Reserving         // P10: the reservation is being saved
    | Unlocking         // P11: counted durably, no signature yet
    | SavingHash        // P13: hash and history entry being saved
    | SavingUncertain   // P14: uncertainty being saved
    | Sending           // the bytes went to the transport
    | Ending(reason: EndReason)
    | Settling          // ended; the read-only settle task
    | Down              // restarted: no controller

  datatype Refresh = Refresh(final: nat, next: nat)

  datatype State = State(
    rec: Record,
    lines: seq<Line>,
    disk: Snap,
    queue: seq<Snap>,
    wait: Wait,
    phase: Phase,
    refresh: Option<Refresh>,
    stop: Option<EndReason>,
    now: int,
    signed: seq<nat>,    // attempts the secret signed for, in order
    calls: seq<Hash>)    // payments handed to the transport, in order

  datatype Event =
    // the controller, between two awaits
    | Follow(at: Position)
    | Fate(fate: Status)
    | LoseChain
    | Judge(evidence: Evidence)
    | Admit(chain: ChainSearch.Chain, view: AttestedAsset, account: Account, quote: Quote, clock: int,
            unlockDeadline: int, budget: nat)
    | Quit(why: EndReason)
    | AfterReserve
    | Sign(hash: Hash)
    | RefuseSignature(why: EndReason)
    | AfterHash
    | Release
    | Answer(acknowledged: bool)
    | Cancel(why: EndReason)
    | End
    | RefreshStart(final: nat)
    | RefreshOne(canonical: Option<Hash>)
    | RefreshStop(write: bool)   // also a read that failed in between: nothing is saved then
    // the rest of the wallet and its environment
    | Stop(why: EndReason)
    | Tick(to: int)
    | WriteDone(ok: bool, landed: bool)
    | Save
    | History(line: nat, status: JournalStatus, height: Option<nat>, success: Option<bool>, accepted: Option<bool>)
    | OtherLine(entry: Line)
    | OtherStatus(line: nat, status: JournalStatus)
    | ResolveHistory
    | Crash

  // ---- Small updates --------------------------------------------------------------------------------

  /** `save()`: the snapshot is taken now; writes land in order, later. */
  function Enqueue(s: State): State {
    s.(queue := s.queue + [Snap(s.rec, s.lines)])
  }

  /** `await persist()`. */
  function Persist(s: State): State {
    Enqueue(s).(wait := Queued(|s.queue|))
  }

  function SetLast(s: State, a: Attempt): State
    requires s.rec.attempts != []
  {
    s.(rec := WithLast(s.rec, a))
  }

  /** No stop and time before the deadline: what is checked right before each signature and release. */
  predicate Authorized(s: State) {
    s.stop.None? && s.now < s.rec.deadline
  }

  predicate Running(s: State) {
    s.phase != Settling && s.phase != Down
  }

  /** `cancel`: withdraws the last attempt and its line unless it was handed over or has a verdict. */
  function CancelLast(s: State): State {
    if s.rec.attempts == [] then s
    else
      var a := LastOf(s.rec);
      if a.status in {Reserved, Signed, Uncertain} && (a.hash.None? || a.hash.value !in s.calls) then
        SetLast(s, a.(status := Cancelled)).(
          lines := if a.hash.Some? then SetStatus(s.lines, a.hash.value, CancelledBeforeBroadcast) else s.lines)
      else s
  }

  predicate HasHash(rec: Record) {
    rec.attempts != [] && LastOf(rec).hash.Some?
  }

  function NewLine(rec: Record, a: Attempt, hash: Hash): Line {
    Line(hash, rec.owner, rec.genesis, a.nonce, SignedNotSubmitted, Some(rec.id), None, None, None)
  }

  function VerdictOf(o: Outcome): Status {
    match o
    case Won => Minted
    case Lost => LostRace
    case Refused => Failed
    case _ => Anomaly
  }

  function ReasonOf(status: Status): EndReason {
    match status
    case Replaced => AccountActivity
    case Dead => Reorg
    case _ => Unverified
  }

  /** One step of `refreshFinality`: the canonical block at an open inclusion is its own, or it is not. */
  function RefreshAttempt(rec: Record, k: nat, final: nat, canonical: Option<Hash>): Record
    requires k < |rec.attempts|
  {
    var a := rec.attempts[k];
    if a.inclusion.None? || a.inclusion.value.height > final || a.finalized || a.doubt then rec
    else if canonical == Some(a.inclusion.value.hash) then MarkFinal(rec, k)
    else DoubtFrom(rec, k)
  }

  // ---- Steps ----------------------------------------------------------------------------------------

  /** No await from the last authority check to the signature. */
  predicate CanSign(s: State) {
    s.phase == Unlocking && Authorized(s) && s.rec.attempts != []
  }

  predicate CanMarkUncertain(s: State) {
    s.phase == SavingHash && s.wait == Saved && Authorized(s) && HasHash(s.rec)
  }

  predicate CanRelease(s: State) {
    s.phase == SavingUncertain && s.wait == Saved && Authorized(s) && HasHash(s.rec)
  }

  predicate CanCancel(s: State) {
    s.phase == Unlocking || (s.phase in {SavingHash, SavingUncertain} && (s.wait == Saved || s.wait == NotSaved))
  }

  /** P2: records where the search found the payment. */
  function Following(s: State, at: Position): State
    requires s.rec.attempts != []
  {
    Enqueue(SetLast(s, LastOf(s.rec).(status := Included, inclusion := Some(at))))
  }

  /** P2: the payment can never be in a block. */
  function TakingFate(s: State, status: Status): State
    requires s.rec.attempts != []
  {
    var t := SetLast(s, LastOf(s.rec).(status := status));
    t.(rec := if status == Dead then DoubtOpen(t.rec) else t.rec, phase := Ending(ReasonOf(status)))
  }

  function LosingChain(s: State): State {
    s.(rec := DoubtOpen(s.rec), phase := Ending(Reorg))
  }

  /** P6, or the settle task. */
  function Judging(s: State, o: Outcome): State
    requires s.rec.attempts != []
  {
    if o == NotVerified then (if s.phase == Passing then s.(phase := Ending(Unverified)) else s)
    else
      var t := Enqueue(SetLast(s, LastOf(s.rec).(status := VerdictOf(o))));
      if s.phase == Passing && o == Refused then t.(phase := Ending(PaymentFailed))
      else if s.phase == Passing && o !in {Won, Lost} then t.(phase := Ending(PaymentAnomaly))
      else t
  }

  function Refreshed(s: State, write: bool): State {
    if write then Enqueue(s.(refresh := None)) else s.(refresh := None)
  }

  function Closing(s: State, why: EndReason): State {
    var t := CancelLast(s);
    Enqueue(t.(rec := t.rec.(ended := true, reason := Some(why), endedAt := Some(s.now)),
               stop := if s.stop.None? then Some(why) else s.stop, phase := Settling))
  }

  /** A restart keeps only what storage holds: lines never released are cancelled, the record ends. */
  function Restarting(s: State): State {
    var lines := RestartLines(s.disk.lines);
    s.(rec := Resolve(EndOnRestart(s.disk.rec, s.now), lines), lines := lines, queue := [], wait := NoWait,
       phase := Down, refresh := None)
  }

  /** P13: the hash and its history line enter together. */
  function Signing(s: State, hash: Hash): State
    requires s.rec.attempts != []
  {
    var a := LastOf(s.rec);
    Persist(SetLast(s, a.(status := Signed, hash := Some(hash))).(
      lines := [NewLine(s.rec, a, hash)] + s.lines, phase := SavingHash, signed := s.signed + [a.n]))
  }

  /** P11, P12: what the secret signed is refused, or it threw. */
  function Refusing(s: State, why: EndReason): State
    requires s.rec.attempts != []
  {
    CancelLast(s).(phase := Ending(why), signed := s.signed + [LastOf(s.rec).n])
  }

  /** P14. */
  function MarkingUncertain(s: State): State
    requires HasHash(s.rec)
  {
    Persist(SetLast(s, LastOf(s.rec).(status := Uncertain)).(
      lines := SetStatus(s.lines, LastOf(s.rec).hash.value, BroadcastUncertain), phase := SavingUncertain))
  }

  function HandingOver(s: State): State
    requires HasHash(s.rec)
  {
    s.(wait := NoWait, phase := Sending, calls := s.calls + [LastOf(s.rec).hash.value])
  }

  /** P15. */
  function Answering(s: State, acknowledged: bool): State
    requires HasHash(s.rec)
  {
    Enqueue(SetLast(s, LastOf(s.rec).(status := if acknowledged then Sent else Uncertain)).(
      lines := SetStatus(s.lines, LastOf(s.rec).hash.value, if acknowledged then Submitted else BroadcastUncertain),
      phase := Passing))
  }

  function Cancelling(s: State, why: EndReason): State {
    CancelLast(s).(wait := NoWait, phase := Ending(why))
  }

  /** Between two steps of a pass, or of the settle task. */
  predicate Idle(s: State) {
    (s.phase == Passing || s.phase == Settling) && s.refresh.None? && (s.phase == Passing ==> !s.rec.reorganized)
  }

  predicate CanFollow(s: State) {
    Idle(s) && s.rec.attempts != [] && LastOf(s.rec).status in {Sent, Uncertain}
  }

  predicate CanJudge(s: State) {
    Idle(s) && s.rec.attempts != [] && LastOf(s.rec).status == Included
  }

  /** When the code takes the step. */
  predicate Enabled(s: State, e: Event) {
    match e
    case Follow(at) => CanFollow(s) && InWindow(LastOf(s.rec), at)
    case Fate(status) => CanFollow(s) && s.phase == Passing && status in {Replaced, Dead, Expired}
    case LoseChain => Idle(s) && s.phase == Passing
    case Judge(evidence) => CanJudge(s)
    case Admit(chain, view, account, quote, clock, unlockDeadline, budget) =>
      && Idle(s) && s.phase == Passing && Authorized(s)
      && (s.rec.attempts != [] ==>
            && LastOf(s.rec).status !in {Sent, Uncertain, Included}
            && ChainSearch.ProveLineage(chain, Inclusions(s.rec.attempts), account.nonce, LastOf(s.rec).nonce).Some?)
      && Admission(s.rec, view, account, quote, clock, unlockDeadline, budget).Reserve?
    case Quit(_) => s.phase == Passing
    case AfterReserve => s.phase == Reserving && (s.wait == Saved || s.wait == NotSaved)
    case Sign(_) => CanSign(s) && |s.lines| < JOURNAL_CAPACITY
    case RefuseSignature(_) => CanSign(s)
    case AfterHash => CanMarkUncertain(s)
    case Release => CanRelease(s)
    case Answer(_) => s.phase == Sending && HasHash(s.rec)
    case Cancel(_) => CanCancel(s)
    case End => s.phase.Ending?
    case RefreshStart(_) => (s.phase == Passing || s.phase == Settling) && s.refresh.None?
    case RefreshOne(_) => s.refresh.Some? && s.refresh.value.next < |s.rec.attempts|
    case RefreshStop(_) => s.refresh.Some?
    case Stop(_) => s.stop.None?
    case Tick(_) => true
    case WriteDone(_, _) => s.queue != []
    case Save => true
    case History(i, status, _, _, _) =>
      && i < |s.lines| && !IsFinal(s.lines[i].status)
      && status in {HistoryPending, HistoryIncluded, HistoryFinalized, HistoryExpired, IndexerUnavailable,
                    HistoryUnknown}
    case OtherLine(l) => l.session != Some(s.rec.id)
    case OtherStatus(i, _) => i < |s.lines| && s.lines[i].session != Some(s.rec.id)
    case ResolveHistory => true
    case Crash => true
  }

  function Apply(s: State, e: Event): State
    requires Enabled(s, e)
  {
    match e
    case Follow(at) => Following(s, at)
    case Fate(status) => TakingFate(s, status)
    case LoseChain => LosingChain(s)
    case Judge(evidence) => Judging(s, Classify(LastOf(s.rec), evidence, s.rec.terms.lotAmount))
    case Admit(chain, view, account, quote, clock, unlockDeadline, budget) =>
      var a := Admission(s.rec, view, account, quote, clock, unlockDeadline, budget).attempt;
      Persist(s.(rec := WithReservation(s.rec, a), phase := Reserving))
    case Quit(why) => s.(phase := Ending(why), refresh := None)
    case AfterReserve =>
      if s.wait == Saved then s.(wait := NoWait, phase := Unlocking)
      else Cancelling(s, Unavailable)
    case Sign(hash) => Signing(s, hash)
    case RefuseSignature(why) => Refusing(s, why)
    case AfterHash => MarkingUncertain(s)
    case Release => HandingOver(s)
    case Answer(acknowledged) => Answering(s, acknowledged)
    case Cancel(why) => Cancelling(s, why)
    case End => Closing(s, s.phase.reason)
    case RefreshStart(height) => s.(refresh := Some(Refresh(height, 0)))
    case RefreshOne(canonical) =>
      var r := s.refresh.value;
      s.(rec := RefreshAttempt(s.rec, r.next, r.final, canonical), refresh := Some(Refresh(r.final, r.next + 1)))
    case RefreshStop(write) => Refreshed(s, write)
    case Stop(why) => s.(stop := Some(why))
    case Tick(to) => s.(now := to)
    case WriteDone(ok, landed) =>
      s.(disk := if ok || landed then s.queue[0] else s.disk,
         queue := s.queue[1..],
         wait := if s.wait.Queued?
                 then (if s.wait.place == 0 then (if ok then Saved else NotSaved) else Queued(s.wait.place - 1))
                 else s.wait)
    case Save => Enqueue(s)
    case History(i, status, height, success, accepted) =>
      s.(lines := s.lines[i := s.lines[i].(status := status, height := height, nativeSuccess := success,
                                           accepted := accepted)])
    case OtherLine(l) => s.(lines := [l] + s.lines)
    case OtherStatus(i, status) => s.(lines := s.lines[i := s.lines[i].(status := status)])
    case ResolveHistory => s.(rec := Resolve(s.rec, s.lines))
    case Crash => Restarting(s)
  }

  // ---- The environment's honesty --------------------------------------------------------------------

  /** Proven ancestry and bodies are the chain's: headers hash to what their children name. */
  ghost predicate ProvenIn(w: World, c: ChainSearch.Chain) {
    var tip := c[|c| - 1].hash;
    && |w.path(tip)| == |c|
    && forall h :: 0 <= h < |c| ==> c[h].hash == w.path(tip)[h] && c[h].body == w.body(c[h].hash)
  }

  /** Witnesses attest the owner's balance and the block's own height; a signature is new and names the
      birth block it was reserved at; other operations sign other payments. Nothing the node claims about
      nonces, finality or canonical hashes is trusted. */
  ghost predicate Truthful(w: World, s: State, e: Event) {
    match e
    case Judge(evidence) => ProvenIn(w, evidence.chain)
    case Admit(chain, view, _, _, _, _, _) =>
      && ProvenIn(w, chain) && chain[|chain| - 1].hash == view.block.hash && |chain| == view.block.height + 1
      && view.held == w.held(view.block.hash)
    case Sign(hash) =>
      && !HasLine(s.lines, hash) && hash !in s.calls
      && s.rec.attempts != [] && w.birth(hash) == LastOf(s.rec).birth
    case OtherLine(l) => !HasLine(s.lines, l.hash)
    case _ => true
  }

  /** The first state: a fresh record, in memory and in storage alike. */
  ghost predicate Init(s: State) {
    && SessionSnapshots.TermsOk(s.rec.terms)
    && s.rec.attempts == [] && s.rec.used == 0 && !s.rec.ended && s.rec.reason.None? && s.rec.endedAt.None?
    && !s.rec.reorganized
    && s.disk == Snap(s.rec, s.lines) && s.queue == [] && s.wait == NoWait
    && s.phase == Passing && s.refresh.None? && s.stop.None?
    && s.signed == [] && s.calls == []
  }

  /** `s` is where a run of the session through `events` ends. */
  ghost predicate Run(w: World, start: State, events: seq<Event>, s: State)
    decreases |events|, 1
  {
    if events == [] then s == start else LastStep(w, start, events, s)
  }

  ghost predicate LastStep(w: World, start: State, events: seq<Event>, s: State)
    requires events != []
    decreases |events|, 0
  {
    var k := |events| - 1;
    exists before: State ::
      Run(w, start, events[..k], before) && Enabled(before, events[k]) && Truthful(w, before, events[k])
      && s == Apply(before, events[k])
  }

  ghost predicate Reachable(w: World, s: State) {
    exists start: State, events: seq<Event> :: Init(start) && Run(w, start, events, s)
  }
}
