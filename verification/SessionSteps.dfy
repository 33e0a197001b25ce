/** Every step of a session keeps its invariant. */
module SessionSteps {
  import opened MintTypes
  import opened SpendAccounting
  import opened StoredLedger
  import opened LedgerSoundness
  import opened SpendWorld
  import opened Classification
  import opened HistoryResolution
  import opened SessionMachine
  import opened SessionSafety
  import ChainSearch
  import SessionSnapshots

  // ---- The ledger -----------------------------------------------------------------------------------

  lemma FollowKeeps(w: World, home: Record, s: State, at: Position)
    requires Inv(w, home, s) && Enabled(s, Follow(at))
    ensures Kept(w, home, Mem(Apply(s, Follow(at)))) && SameChain(s.rec, Apply(s, Follow(at)).rec)
  {
    var a := LastOf(s.rec);
    assert AttemptOk(a, |s.rec.attempts| - 1, s.rec.used);
    LastMoveKept(w, home, Mem(s), a.(status := Included, inclusion := Some(at)), s.lines);
  }

  lemma FateKeeps(w: World, home: Record, s: State, status: Status)
    requires Inv(w, home, s) && Enabled(s, Fate(status))
    ensures Kept(w, home, Mem(Apply(s, Fate(status)))) && SameChain(s.rec, Apply(s, Fate(status)).rec)
  {
    var a := LastOf(s.rec);
    assert AttemptOk(a, |s.rec.attempts| - 1, s.rec.used);
    LastMoveKept(w, home, Mem(s), a.(status := status), s.lines);
    var rec := WithLast(s.rec, a.(status := status));
    if status == Dead {
      DoubtOpenKept(w, home, Snap(rec, s.lines));
      SameChainTwice(s.rec, rec, DoubtOpen(rec));
    }
  }

  lemma DoubtOpenKept(w: World, home: Record, x: Snap)
    requires Kept(w, home, x)
    ensures Kept(w, home, Snap(DoubtOpen(x.rec), x.lines)) && SameChain(x.rec, DoubtOpen(x.rec))
  {
    DoubtOpenStands(x.rec);
    DoubtKept(w, home, x, DoubtOpen(x.rec));
  }

  /** A verdict comes with a proof of the payment in its block. */
  lemma VerdictIsProven(w: World, p: Attempt, evidence: Evidence, lotSize: nat)
    requires ProvenIn(w, evidence.chain) && Classify(p, evidence, lotSize) != NotVerified
    ensures InItsBlock(w, p)
  {
  }

  lemma VerdictKept(w: World, home: Record, x: Snap, verdict: Status)
    requires Kept(w, home, x) && x.rec.attempts != [] && LastOf(x.rec).status == Included
    requires verdict in {Minted, LostRace, Failed, Anomaly} && InItsBlock(w, LastOf(x.rec))
    ensures Kept(w, home, Snap(WithLast(x.rec, LastOf(x.rec).(status := verdict)), x.lines))
    ensures SameChain(x.rec, WithLast(x.rec, LastOf(x.rec).(status := verdict)))
  {
    var a := LastOf(x.rec);
    assert AttemptOk(a, |x.rec.attempts| - 1, x.rec.used);
    LastMoveKept(w, home, x, a.(status := verdict), x.lines);
  }

  lemma JudgingKept(w: World, home: Record, s: State, o: Outcome)
    requires Kept(w, home, Mem(s)) && s.rec.attempts != [] && LastOf(s.rec).status == Included
    requires o != NotVerified ==> InItsBlock(w, LastOf(s.rec))
    ensures Kept(w, home, Mem(Judging(s, o))) && SameChain(s.rec, Judging(s, o).rec)
  {
    if o == NotVerified {
      UnchangedStands(s.rec);
    } else {
      VerdictKept(w, home, Mem(s), VerdictOf(o));
    }
  }

  lemma JudgeKeeps(w: World, home: Record, s: State, evidence: Evidence)
    requires Inv(w, home, s) && Enabled(s, Judge(evidence)) && Truthful(w, s, Judge(evidence))
    ensures Kept(w, home, Mem(Apply(s, Judge(evidence)))) && SameChain(s.rec, Apply(s, Judge(evidence)).rec)
  {
    var o := Classify(LastOf(s.rec), evidence, s.rec.terms.lotAmount);
    if o != NotVerified {
      VerdictIsProven(w, LastOf(s.rec), evidence, s.rec.terms.lotAmount);
    }
    JudgingKept(w, home, s, o);
  }

  // ---- Admission ------------------------------------------------------------------------------------

  lemma {:induction false} InclusionsHave(attempts: seq<Attempt>, i: nat)
    requires i < |attempts| && attempts[i].inclusion.Some?
    ensures BlockOf(attempts[i].inclusion.value) in Inclusions(attempts)
  {
    if i < |attempts| - 1 {
      InclusionsHave(attempts[..|attempts| - 1], i);
    }
  }

  lemma LineageProves(w: World, rec: Record, chain: ChainSearch.Chain, i: nat)
    requires ProvenIn(w, chain) && ChainSearch.OnAncestry(chain, Inclusions(rec.attempts))
    requires i < |rec.attempts| && rec.attempts[i].inclusion.Some?
    ensures OnPath(w, chain[|chain| - 1].hash, BlockOf(rec.attempts[i].inclusion.value))
    ensures rec.attempts[i].inclusion.value.height < |chain|
  {
    InclusionsHave(rec.attempts, i);
    ChainSearch.OnAncestryMeans(chain, Inclusions(rec.attempts));
  }

  lemma AllAdmit(w: World, rec: Record, i: nat)
    requires Chained(rec) && AttemptsOk(rec) && Grounded(w, rec) && i < |rec.attempts|
    requires AdmitsSuccessor(LastOf(rec).status)
    ensures AdmitsSuccessor(rec.attempts[i].status) && InItsBlock(w, rec.attempts[i])
  {
    assert i < |rec.attempts| - 1 ==> LedgerSoundness.Followed(rec, i);
  }

  ghost predicate BornOn(w: World, a: Attempt, chain: ChainSearch.Chain) {
    && a.hash.None? && !AdmitsSuccessor(a.status)
    && chain[|chain| - 1].hash == a.birth.hash && |chain| == a.birth.height + 1
    && a.held == w.held(a.birth.hash)
  }

  /** A reservation on a proven lineage is grounded. */
  lemma ReservationGrounds(w: World, rec: Record, a: Attempt, chain: ChainSearch.Chain)
    requires Chained(rec) && AttemptsOk(rec) && Grounded(w, rec) && ProvenIn(w, chain) && BornOn(w, a, chain)
    requires rec.attempts != [] ==>
               AdmitsSuccessor(LastOf(rec).status) && ChainSearch.OnAncestry(chain, Inclusions(rec.attempts))
    ensures Grounded(w, WithReservation(rec, a))
  {
    var s := WithReservation(rec, a);
    var n := |rec.attempts|;
    forall i | 0 <= i < n
      ensures InItsBlock(w, rec.attempts[i])
      ensures OnPath(w, a.birth.hash, BlockOf(rec.attempts[i].inclusion.value))
    {
      AllAdmit(w, rec, i);
      LineageProves(w, rec, chain, i);
    }
    forall k | 0 <= k <= n ensures GroundedAt(w, s, k) {
      assert k < n ==> GroundedAt(w, rec, k);
    }
  }

  /** The signature stays within every limit the person approved, on chains the ledger has seen and any other. */
  ghost predicate WithinTerms(rec: Record, v: AttestedAsset, next: NextLot) {
    && CountStatus(rec.attempts, Minted) < rec.terms.maxLots
    && CountStatus(rec.attempts, LostRace) <= Retries(rec.terms)
    && rec.used < rec.terms.maxAttempts
    && next.fee <= rec.terms.maxFeePerLot
    && ProtocolBound(rec.attempts, rec.ticket) + next.fee + rec.ticket <= rec.terms.maxSpend
    && (rec.attempts != [] ==>
          && v.block.height > LastOf(rec).birth.height
          && v.held == rec.attempts[0].held + rec.terms.lotAmount * CountStatus(rec.attempts, Minted))
  }

  /** The account covers the payment's worst case where it executes. */
  ghost predicate Affordable(rec: Record, account: Account, q: Quote, next: NextLot) {
    && account.free >= account.frozen + q.networkFee * rec.margin + rec.tip + rec.ticket + next.fee
    && account.free >= q.existentialDeposit + q.networkFee * rec.margin + rec.tip + rec.ticket + next.fee
  }

  /** A payment is reserved exactly when it is within the terms, in time, for the attested lot, prepared as attested,
      next in the account's nonces, affordable, and with its classification's calls free. */
  lemma AdmissionIsExact(rec: Record, v: AttestedAsset, account: Account, q: Quote, clock: int, unlockDeadline: int,
                         calls: nat)
    ensures Admission(rec, v, account, q, clock, unlockDeadline, calls).Reserve?
       <==> && v.next.Some? && WithinTerms(rec, v, v.next.value) && OffersTheLot(rec.terms, v, v.next.value)
            && clock < rec.deadline - MIN_ATTEMPT_MS && calls >= 2
            && q.nativeFee == rec.ticket && QuoteMatches(q, v.next.value, v.block)
            && q.nonce == account.nonce && (rec.attempts != [] ==> account.nonce == LastOf(rec).nonce + 1)
            && Affordable(rec, account, q, v.next.value)
  {
  }

  /** What admission checked of the record, and what it put into the attempt. */
  lemma AdmissionChecks(rec: Record, v: AttestedAsset, account: Account, q: Quote, clock: int, unlockDeadline: int,
                        calls: nat)
    requires Admission(rec, v, account, q, clock, unlockDeadline, calls).Reserve?
    ensures
      var a := Admission(rec, v, account, q, clock, unlockDeadline, calls).attempt;
      && a.status == Reserved && a.hash.None? && a.inclusion.None? && !a.finalized && !a.doubt
      && a.n == |rec.attempts| + 1 && 1 <= a.lot <= LOTS && a.reserveProtocol == Charge(a, rec.ticket)
      && a.birth == v.block && a.held == v.held && a.minted == v.minted && a.nonce == q.nonce
      && v.next.Some? && a.lot == v.next.value.lot && a.fee == v.next.value.fee && a.anchor == v.next.value.anchor
      && a.networkFee == q.networkFee + rec.tip && a.reserveNetwork == q.networkFee * rec.margin + rec.tip
      && ProtocolBound(rec.attempts, rec.ticket) + Charge(a, rec.ticket) <= rec.terms.maxSpend
      && CountStatus(rec.attempts, Minted) < rec.terms.maxLots
      && CountStatus(rec.attempts, LostRace) <= Retries(rec.terms) && rec.used < rec.terms.maxAttempts
      && (rec.attempts != [] ==>
            && v.block.height > LastOf(rec).birth.height && a.nonce == LastOf(rec).nonce + 1
            && a.held == rec.attempts[0].held + rec.terms.lotAmount * CountStatus(rec.attempts, Minted))
  {
  }

  lemma AdmissionMayReserve(rec: Record, v: AttestedAsset, account: Account, q: Quote, clock: int,
                            unlockDeadline: int, calls: nat)
    requires Admission(rec, v, account, q, clock, unlockDeadline, calls).Reserve?
    requires !rec.ended && rec.used == |rec.attempts|
    requires rec.attempts != [] ==>
               && AdmitsSuccessor(LastOf(rec).status) && LastOf(rec).hash.Some? && LastOf(rec).inclusion.Some?
               && LastOf(rec).inclusion.value.height <= v.block.height
    ensures MayReserve(rec, Admission(rec, v, account, q, clock, unlockDeadline, calls).attempt)
  {
    AdmissionChecks(rec, v, account, q, clock, unlockDeadline, calls);
  }

  function Admitting(rec: Record, e: Event): Decision
    requires e.Admit?
  {
    Admission(rec, e.view, e.account, e.quote, e.clock, e.unlockDeadline, e.budget)
  }

  /** A payment that ended a pass's classification admits a successor, in a block of the proven lineage. */
  lemma PredecessorIsProven(w: World, rec: Record, s: State, chain: ChainSearch.Chain)
    requires s.rec == rec && PhaseInv(s) && s.phase == Passing && AttemptsOk(rec) && rec.attempts != []
    requires LastOf(rec).status !in {Sent, Uncertain, Included}
    requires ProvenIn(w, chain) && ChainSearch.OnAncestry(chain, Inclusions(rec.attempts))
    ensures AdmitsSuccessor(LastOf(rec).status) && LastOf(rec).hash.Some? && LastOf(rec).inclusion.Some?
    ensures LastOf(rec).inclusion.value.height < |chain|
  {
    var n := |rec.attempts|;
    assert AttemptOk(LastOf(rec), n - 1, rec.used);
    LineageProves(w, rec, chain, n - 1);
  }

  /** What admission relied on holds of the record and of the chain it read. */
  lemma AdmissionFacts(w: World, home: Record, s: State, e: Event)
    requires Kept(w, home, Mem(s)) && PhaseInv(s) && e.Admit? && Enabled(s, e) && Truthful(w, s, e)
    ensures MayReserve(s.rec, Admitting(s.rec, e).attempt)
    ensures BornOn(w, Admitting(s.rec, e).attempt, e.chain)
  {
    if s.rec.attempts != [] {
      PredecessorIsProven(w, s.rec, s, e.chain);
    }
    AdmittedIsBorn(w, s.rec, e);
    AdmissionMayReserve(s.rec, e.view, e.account, e.quote, e.clock, e.unlockDeadline, e.budget);
  }

  lemma AdmittedIsBorn(w: World, rec: Record, e: Event)
    requires e.Admit? && Admitting(rec, e).Reserve?
    requires e.chain[|e.chain| - 1].hash == e.view.block.hash && |e.chain| == e.view.block.height + 1
    requires e.view.held == w.held(e.view.block.hash)
    ensures BornOn(w, Admitting(rec, e).attempt, e.chain)
  {
    AdmissionChecks(rec, e.view, e.account, e.quote, e.clock, e.unlockDeadline, e.budget);
  }

  lemma ReservationKept(w: World, home: Record, x: Snap, a: Attempt, chain: ChainSearch.Chain)
    requires Kept(w, home, x) && MayReserve(x.rec, a) && ProvenIn(w, chain) && BornOn(w, a, chain)
    requires x.rec.attempts != [] ==> ChainSearch.OnAncestry(chain, Inclusions(x.rec.attempts))
    ensures Kept(w, home, Snap(WithReservation(x.rec, a), x.lines))
  {
    ReservationChains(x.rec, a);
    ReservationShapes(x.rec, a);
    ReservationGrounds(w, x.rec, a, chain);
    ReservationJournaled(x.rec, a, x.lines);
  }

  lemma AdmitKeeps(w: World, home: Record, s: State, e: Event)
    requires Inv(w, home, s) && e.Admit? && Enabled(s, e) && Truthful(w, s, e)
    ensures Kept(w, home, Mem(Apply(s, e)))
  {
    AdmissionFacts(w, home, s, e);
    ReservationKept(w, home, Mem(s), Admitting(s.rec, e).attempt, e.chain);
  }

  lemma ReservationJournaled(rec: Record, a: Attempt, lines: seq<Line>)
    requires Journaled(rec, lines) && a.hash.None?
    ensures Journaled(WithReservation(rec, a), lines)
  {
    var s := WithReservation(rec, a);
    forall i | 0 <= i < |s.attempts| && s.attempts[i].hash.Some? ensures OneMatchingLine(lines, s.attempts[i], s) {
      assert OneMatchingLine(lines, rec.attempts[i], rec);
    }
  }

  // ---- Signing and release --------------------------------------------------------------------------

  lemma SignKeeps(w: World, home: Record, s: State, hash: Hash)
    requires Inv(w, home, s) && Enabled(s, Sign(hash)) && Truthful(w, s, Sign(hash))
    ensures Kept(w, home, Mem(Apply(s, Sign(hash))))
  {
    SignatureKept(w, home, Mem(s), hash);
  }

  /** The last attempt and its line take a new status. */
  lemma StatusKeeps(w: World, home: Record, s: State, status: Status, line: JournalStatus)
    requires Kept(w, home, Mem(s)) && HasHash(s.rec)
    requires LastOf(s.rec).status in {Signed, Uncertain} && status in {Uncertain, Sent}
    ensures Kept(w, home, Snap(WithLast(s.rec, LastOf(s.rec).(status := status)),
                               SetStatus(s.lines, LastOf(s.rec).hash.value, line)))
  {
    var a := LastOf(s.rec);
    assert AttemptOk(a, |s.rec.attempts| - 1, s.rec.used);
    StatusKeepsKeys(s.lines, a.hash.value, line);
    LastMoveKept(w, home, Mem(s), a.(status := status), SetStatus(s.lines, a.hash.value, line));
  }

  lemma OtherLineKeeps(w: World, home: Record, x: Snap, l: Line)
    requires Kept(w, home, x) && !HasLine(x.lines, l.hash)
    ensures Kept(w, home, Snap(x.rec, [l] + x.lines))
  {
    NewLineKeepsJournal(x.rec, x.lines, l);
  }

  lemma EndKeeps(w: World, home: Record, s: State)
    requires Inv(w, home, s) && Enabled(s, End)
    ensures Kept(w, home, Mem(Apply(s, End)))
  {
    CancelKept(w, home, s);
    EndKept(w, home, Mem(CancelLast(s)), s.phase.reason, s.now);
  }

  predicate IsSigning(e: Event) {
    e.AfterReserve? || e.Sign? || e.RefuseSignature? || e.AfterHash? || e.Release? || e.Answer? || e.Cancel?
  }

  predicate IsPassing(e: Event) {
    e.Follow? || e.Fate? || e.LoseChain? || e.Judge? || e.Admit? || e.Quit?
  }

  lemma PassingKept(w: World, home: Record, s: State, e: Event)
    requires Inv(w, home, s) && Enabled(s, e) && Truthful(w, s, e) && IsPassing(e)
    ensures Kept(w, home, Mem(Apply(s, e)))
  {
    match e
    case Follow(at) => FollowKeeps(w, home, s, at);
    case Fate(status) => FateKeeps(w, home, s, status);
    case LoseChain => DoubtOpenKept(w, home, Mem(s));
    case Judge(evidence) => JudgeKeeps(w, home, s, evidence);
    case Admit(_, _, _, _, _, _, _) => AdmitKeeps(w, home, s, e);
    case _ =>
  }

  lemma SigningKept(w: World, home: Record, s: State, e: Event)
    requires Inv(w, home, s) && Enabled(s, e) && Truthful(w, s, e) && IsSigning(e)
    ensures Kept(w, home, Mem(Apply(s, e)))
  {
    match e
    case AfterReserve => CancelKept(w, home, s);
    case Sign(hash) => SignKeeps(w, home, s, hash);
    case RefuseSignature(_) => CancelKept(w, home, s);
    case AfterHash => StatusKeeps(w, home, s, Uncertain, BroadcastUncertain);
    case Answer(acknowledged) =>
      StatusKeeps(w, home, s, if acknowledged then Sent else Uncertain,
                  if acknowledged then Submitted else BroadcastUncertain);
    case Cancel(_) => CancelKept(w, home, s);
    case _ =>
  }

  /** What memory holds after any step. */
  lemma MemoryKept(w: World, home: Record, s: State, e: Event)
    requires Inv(w, home, s) && Enabled(s, e) && Truthful(w, s, e)
    ensures Kept(w, home, Mem(Apply(s, e)))
  {
    if IsPassing(e) {
      PassingKept(w, home, s, e);
    } else if IsSigning(e) {
      SigningKept(w, home, s, e);
    } else {
      OthersKept(w, home, s, e);
    }
  }

  lemma OthersKept(w: World, home: Record, s: State, e: Event)
    requires Inv(w, home, s) && Enabled(s, e) && Truthful(w, s, e) && !IsPassing(e) && !IsSigning(e)
    ensures Kept(w, home, Mem(Apply(s, e)))
  {
    match e
    case End => EndKeeps(w, home, s);
    case RefreshOne(canonical) => RefreshKept(w, home, Mem(s), s.refresh.value, canonical);
    case History(i, _, _, _, _) => LinesKept(w, home, Mem(s), Apply(s, e).lines);
    case OtherLine(l) => OtherLineKeeps(w, home, Mem(s), l);
    case OtherStatus(i, _) => LinesKept(w, home, Mem(s), Apply(s, e).lines);
    case ResolveHistory => ResolveKept(w, home, Mem(s));
    case Crash => RestartKept(w, home, s.disk, s.now);
    case _ =>
  }

  ghost predicate Writes(s: State, t: State) {
    t.disk == s.disk && (t.queue == s.queue || t.queue == s.queue + [Mem(t)])
  }

  lemma StepWrites(s: State, e: Event)
    requires Enabled(s, e) && !e.WriteDone? && !e.Crash?
    ensures Writes(s, Apply(s, e))
  {
  }

  lemma WritesKept(w: World, home: Record, s: State, t: State)
    requires LedgerInv(w, home, s) && Writes(s, t) && Kept(w, home, Mem(t))
    ensures LedgerInv(w, home, t)
  {
  }

  lemma WriteDoneKept(w: World, home: Record, s: State, e: Event)
    requires LedgerInv(w, home, s) && e.WriteDone? && Enabled(s, e)
    ensures LedgerInv(w, home, Apply(s, e))
  {
  }

  lemma CrashKept(w: World, home: Record, s: State)
    requires Kept(w, home, s.disk)
    ensures LedgerInv(w, home, Restarting(s))
  {
    RestartKept(w, home, s.disk, s.now);
  }

  lemma LedgerKeeps(w: World, home: Record, s: State, e: Event)
    requires Inv(w, home, s) && Enabled(s, e) && Truthful(w, s, e)
    ensures LedgerInv(w, home, Apply(s, e))
  {
    if e.WriteDone? {
      WriteDoneKept(w, home, s, e);
    } else if e.Crash? {
      CrashKept(w, home, s);
    } else {
      MemoryKept(w, home, s, e);
      StepWrites(s, e);
      WritesKept(w, home, s, Apply(s, e));
    }
  }

  // ---- Phases ---------------------------------------------------------------------------------------

  lemma FollowingPhases(s: State, e: Event)
    requires PhaseInv(s) && AttemptsOk(s.rec) && Enabled(s, e)
    requires e.Follow? || e.Fate? || e.LoseChain? || e.Judge? || e.Quit?
    ensures PhaseInv(Apply(s, e))
  {
    if s.rec.attempts != [] {
      assert AttemptOk(LastOf(s.rec), |s.rec.attempts| - 1, s.rec.used);
    }
  }

  lemma AdmissionPhases(s: State, e: Event)
    requires PhaseInv(s) && AttemptsOk(s.rec) && e.Admit? && Enabled(s, e)
    ensures PhaseInv(Apply(s, e))
  {
  }

  lemma FinalityPhases(s: State, e: Event)
    requires PhaseInv(s) && Enabled(s, e)
    requires e.RefreshStart? || e.RefreshOne? || e.RefreshStop?
    ensures PhaseInv(Apply(s, e))
  {
  }

  lemma SigningPhases(s: State, e: Event)
    requires PhaseInv(s) && Enabled(s, e) && (e.Sign? ==> e.hash !in s.calls)
    requires e.Sign? || e.AfterHash? || e.Release? || e.Answer?
    ensures PhaseInv(Apply(s, e))
  {
  }

  lemma CancelPhases(s: State, e: Event)
    requires PhaseInv(s) && Enabled(s, e)
    requires e.AfterReserve? || e.RefuseSignature? || e.Cancel? || e.End?
    ensures PhaseInv(Apply(s, e))
  {
  }

  lemma WritePhases(s: State, e: Event)
    requires PhaseInv(s) && Enabled(s, e) && (e.WriteDone? || e.Save?)
    ensures PhaseInv(Apply(s, e))
  {
  }

  lemma EnvironmentPhases(s: State, e: Event)
    requires PhaseInv(s) && Enabled(s, e)
    requires e.Stop? || e.Tick? || e.History? || e.OtherLine? || e.OtherStatus?
    ensures PhaseInv(Apply(s, e))
  {
  }

  lemma HistoryPhases(s: State, e: Event)
    requires PhaseInv(s) && Enabled(s, e) && (e.ResolveHistory? || e.Crash?)
    ensures PhaseInv(Apply(s, e))
  {
    ResolutionAddsNothing(s.rec, s.lines);
    ResolutionAddsNothing(EndOnRestart(s.disk.rec, s.now), RestartLines(s.disk.lines));
  }

  lemma PhaseKeeps(s: State, e: Event)
    requires PhaseInv(s) && AttemptsOk(s.rec) && Enabled(s, e) && (e.Sign? ==> e.hash !in s.calls)
    ensures PhaseInv(Apply(s, e))
  {
    if e.Admit? {
      AdmissionPhases(s, e);
    } else if IsPassing(e) {
      FollowingPhases(s, e);
    } else if e.RefreshStart? || e.RefreshOne? || e.RefreshStop? {
      FinalityPhases(s, e);
    } else if e.ResolveHistory? || e.Crash? {
      HistoryPhases(s, e);
    } else if e.AfterReserve? || e.RefuseSignature? || e.Cancel? || e.End? {
      CancelPhases(s, e);
    } else if IsSigning(e) {
      SigningPhases(s, e);
    } else if e.WriteDone? || e.Save? {
      WritePhases(s, e);
    } else {
      EnvironmentPhases(s, e);
    }
  }
}
