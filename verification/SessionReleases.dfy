/** Every step keeps what was released committed, and what was signed counted. */
module SessionReleases {
  import opened MintTypes
  import opened StoredLedger
  import opened LedgerSoundness
  import opened SpendWorld
  import opened HistoryResolution
  import opened SessionMachine
  import opened SessionSafety
  import opened SessionSteps

  // ---- Commitments ----------------------------------------------------------------------------------

  ghost predicate RecordCarries(r: Record, s: Record, hash: Hash) {
    forall i :: 0 <= i < |r.attempts| && Uncancelled(r.attempts[i], hash) ==>
      i < |s.attempts| && Uncancelled(s.attempts[i], hash)
  }

  lemma CarriedRecordCommits(r: Record, s: Record, hash: Hash)
    requires RecordCommits(r, hash) && RecordCarries(r, s, hash)
    ensures RecordCommits(s, hash)
  {
    var i :| 0 <= i < |r.attempts| && Uncancelled(r.attempts[i], hash);
    assert Uncancelled(s.attempts[i], hash);
  }

  lemma NewLineCommits(lines: seq<Line>, l: Line, hash: Hash)
    requires LinesCommit(lines, hash) && l.hash != hash
    ensures LinesCommit([l] + lines, hash)
  {
    assert ([l] + lines)[1..] == lines;
  }

  lemma ChangedLineCommits(lines: seq<Line>, i: nat, l: Line, hash: Hash)
    requires LinesCommit(lines, hash) && i < |lines| && SameKey(lines[i], l)
    requires i == FindLine(lines, hash) ==> l.status !in {SignedNotSubmitted, CancelledBeforeBroadcast}
    ensures LinesCommit(lines[i := l], hash)
  {
    KeysFind(lines, lines[i := l], hash);
  }

  lemma NewStatusCommits(lines: seq<Line>, changed: Hash, status: JournalStatus, hash: Hash)
    requires LinesCommit(lines, hash)
    requires changed != hash || status !in {SignedNotSubmitted, CancelledBeforeBroadcast}
    ensures LinesCommit(SetStatus(lines, changed, status), hash)
  {
    var i := FindLine(lines, changed);
    if i < |lines| {
      ChangedLineCommits(lines, i, lines[i].(status := status), hash);
    }
  }

  lemma RestartCommits(lines: seq<Line>, hash: Hash)
    requires LinesCommit(lines, hash)
    ensures LinesCommit(RestartLines(lines), hash)
  {
    KeysFind(lines, RestartLines(lines), hash);
  }

  /** History can only settle or expire a payment whose line says it was released. */
  lemma {:induction false} ResolutionCarries(rec: Record, lines: seq<Line>, n: nat, hash: Hash)
    requires LinesCommit(lines, hash) && n <= |rec.attempts|
    ensures RecordCarries(rec, ResolveUpto(rec, lines, n), hash)
  {
    if n > 0 {
      ResolutionCarries(rec, lines, n - 1, hash);
      ResolveStepCarries(ResolveUpto(rec, lines, n - 1), lines, n - 1, hash);
    }
  }

  lemma ResolveStepCarries(rec: Record, lines: seq<Line>, k: nat, hash: Hash)
    requires LinesCommit(lines, hash) && k < |rec.attempts|
    ensures RecordCarries(rec, ResolveAt(rec, lines, k), hash)
  {
  }

  lemma ResolvedRecordCommits(rec: Record, lines: seq<Line>, hash: Hash)
    requires RecordCommits(rec, hash) && LinesCommit(lines, hash)
    ensures RecordCommits(Resolve(rec, lines), hash)
  {
    if rec.ended {
      ResolutionCarries(rec, lines, |rec.attempts|, hash);
      CarriedRecordCommits(rec, Resolve(rec, lines), hash);
    }
  }

  /** A committed payment's line belongs to the session. */
  lemma CommittedLineIsOurs(x: Snap, hash: Hash)
    requires Journaled(x.rec, x.lines) && Commits(x, hash)
    ensures LineMatches(LineOf(x.lines, hash), x.rec.attempts[AttemptOf(x.rec, hash)], x.rec)
  {
    assert OneMatchingLine(x.lines, x.rec.attempts[AttemptOf(x.rec, hash)], x.rec);
  }

  ghost function AttemptOf(rec: Record, hash: Hash): (i: nat)
    requires RecordCommits(rec, hash)
    ensures i < |rec.attempts| && Uncancelled(rec.attempts[i], hash)
  {
    var i :| 0 <= i < |rec.attempts| && Uncancelled(rec.attempts[i], hash);
    i
  }

  predicate Cancels(e: Event) {
    e.AfterReserve? || e.RefuseSignature? || e.Cancel? || e.End?
  }

  /** A payment that may have left keeps its hash and is never called unreleased again. */
  ghost predicate KeepsReleased(r: Record, s: Record) {
    && |s.attempts| >= |r.attempts|
    && forall i :: 0 <= i < |r.attempts| && r.attempts[i].status !in {Reserved, Signed, Cancelled} ==>
         s.attempts[i].hash == r.attempts[i].hash && s.attempts[i].status !in {Reserved, Signed, Cancelled}
  }

  lemma FollowingKeepsReleased(s: State, e: Event)
    requires Enabled(s, e) && (e.Follow? || e.Fate? || e.LoseChain?)
    ensures KeepsReleased(s.rec, Apply(s, e).rec)
  {
  }

  lemma JudgingKeepsReleased(s: State, e: Event)
    requires Enabled(s, e) && (e.Judge? || e.Admit?)
    ensures KeepsReleased(s.rec, Apply(s, e).rec)
  {
  }

  lemma SigningKeepsReleased(s: State, e: Event)
    requires Enabled(s, e) && PhaseInv(s) && (e.Sign? || e.AfterHash? || e.Answer?)
    ensures KeepsReleased(s.rec, Apply(s, e).rec)
  {
  }

  lemma OthersKeepReleased(s: State, e: Event)
    requires Enabled(s, e) && !e.Crash? && !e.ResolveHistory? && !Cancels(e)
    requires !e.Follow? && !e.Fate? && !e.LoseChain? && !e.Judge? && !e.Admit?
    requires !e.Sign? && !e.AfterHash? && !e.Answer?
    ensures KeepsReleased(s.rec, Apply(s, e).rec)
  {
  }

  lemma CancelCarries(s: State, e: Event, hash: Hash)
    requires Enabled(s, e) && Cancels(e) && hash in s.calls
    ensures RecordCarries(s.rec, Apply(s, e).rec, hash)
  {
  }

  lemma RecordsCommit(s: State, e: Event, hash: Hash)
    requires Enabled(s, e) && PhaseInv(s) && RecordCommits(s.rec, hash) && (hash in s.calls || !Cancels(e))
    requires !e.Crash? && !e.ResolveHistory?
    ensures RecordCommits(Apply(s, e).rec, hash)
  {
    if Cancels(e) {
      CancelCarries(s, e, hash);
    } else if e.Follow? || e.Fate? || e.LoseChain? {
      FollowingKeepsReleased(s, e);
    } else if e.Judge? || e.Admit? {
      JudgingKeepsReleased(s, e);
    } else if e.Sign? || e.AfterHash? || e.Answer? {
      SigningKeepsReleased(s, e);
    } else {
      OthersKeepReleased(s, e);
    }
    CarriedRecordCommits(s.rec, Apply(s, e).rec, hash);
  }

  lemma CancelCommits(s: State, hash: Hash)
    requires LinesCommit(s.lines, hash) && hash in s.calls
    ensures LinesCommit(CancelLast(s).lines, hash)
  {
    if s.rec.attempts != [] && LastOf(s.rec).hash.Some? {
      if LastOf(s.rec).hash.value !in s.calls {
        NewStatusCommits(s.lines, LastOf(s.rec).hash.value, CancelledBeforeBroadcast, hash);
      }
    }
  }

  lemma HistoryCommits(s: State, e: Event, hash: Hash)
    requires Enabled(s, e) && Commits(Mem(s), hash) && Journaled(s.rec, s.lines)
    requires e.History? || e.OtherStatus?
    ensures LinesCommit(Apply(s, e).lines, hash)
  {
    CommittedLineIsOurs(Mem(s), hash);
    ChangedLineCommits(s.lines, e.line, Apply(s, e).lines[e.line], hash);
  }

  lemma SigningLinesCommit(w: World, s: State, e: Event, hash: Hash)
    requires Enabled(s, e) && Truthful(w, s, e) && LinesCommit(s.lines, hash)
    requires e.Sign? || e.AfterHash? || e.Answer? || e.OtherLine?
    ensures LinesCommit(Apply(s, e).lines, hash)
  {
    match e
    case Sign(h) => NewLineCommits(s.lines, NewLine(s.rec, LastOf(s.rec), h), hash);
    case OtherLine(l) => NewLineCommits(s.lines, l, hash);
    case AfterHash => NewStatusCommits(s.lines, LastOf(s.rec).hash.value, BroadcastUncertain, hash);
    case Answer(acknowledged) =>
      NewStatusCommits(s.lines, LastOf(s.rec).hash.value, if acknowledged then Submitted else BroadcastUncertain, hash);
    case _ =>
  }

  lemma CancelledLinesCommit(s: State, e: Event, hash: Hash)
    requires Enabled(s, e) && Cancels(e) && LinesCommit(s.lines, hash) && hash in s.calls
    ensures LinesCommit(Apply(s, e).lines, hash)
  {
    CancelCommits(s, hash);
  }

  lemma LinesStayCommitted(w: World, s: State, e: Event, hash: Hash)
    requires Enabled(s, e) && Truthful(w, s, e) && Commits(Mem(s), hash) && Journaled(s.rec, s.lines)
    requires hash in s.calls || !Cancels(e)
    requires !e.Crash?
    ensures LinesCommit(Apply(s, e).lines, hash)
  {
    if Cancels(e) {
      CancelledLinesCommit(s, e, hash);
    } else if e.Sign? || e.AfterHash? || e.Answer? || e.OtherLine? {
      SigningLinesCommit(w, s, e, hash);
    } else if e.History? || e.OtherStatus? {
      HistoryCommits(s, e, hash);
    }
  }

  lemma MemoryCommits(w: World, home: Record, s: State, e: Event, hash: Hash)
    requires Inv(w, home, s) && Enabled(s, e) && Truthful(w, s, e) && Commits(Mem(s), hash)
    requires hash in s.calls || !Cancels(e)
    requires !e.Crash?
    ensures Commits(Mem(Apply(s, e)), hash)
  {
    LinesStayCommitted(w, s, e, hash);
    if e.ResolveHistory? {
      ResolvedRecordCommits(s.rec, s.lines, hash);
    } else {
      RecordsCommit(s, e, hash);
    }
  }

  /** A restart reads only what storage holds, and storage holds the commitment. */
  lemma RestartKeepsCommitment(x: Snap, now: int, hash: Hash)
    requires Commits(x, hash)
    ensures
      var lines := RestartLines(x.lines);
      Commits(Snap(Resolve(EndOnRestart(x.rec, now), lines), lines), hash)
  {
    var lines := RestartLines(x.lines);
    RestartCommits(x.lines, hash);
    CarriedRecordCommits(x.rec, EndOnRestart(x.rec, now), hash);
    ResolvedRecordCommits(EndOnRestart(x.rec, now), lines, hash);
  }

  // ---- Releases -------------------------------------------------------------------------------------

  lemma WritesStayDurable(s: State, t: State, hash: Hash)
    requires Writes(s, t) && Durable(s, hash) && Commits(Mem(t), hash)
    ensures Durable(t, hash)
  {
  }

  lemma WriteDoneStaysDurable(s: State, e: Event, hash: Hash)
    requires e.WriteDone? && Enabled(s, e) && Durable(s, hash)
    ensures Durable(Apply(s, e), hash)
  {
  }

  lemma CallsStayCommitted(w: World, home: Record, s: State, e: Event, hash: Hash)
    requires Inv(w, home, s) && Enabled(s, e) && Truthful(w, s, e) && hash in s.calls
    ensures Commits(Mem(Apply(s, e)), hash) && Durable(Apply(s, e), hash)
  {
    if e.Crash? {
      RestartKeepsCommitment(s.disk, s.now, hash);
    } else {
      MemoryCommits(w, home, s, e, hash);
      if e.WriteDone? {
        WriteDoneStaysDurable(s, e, hash);
      } else {
        StepWrites(s, e);
        WritesStayDurable(s, Apply(s, e), hash);
      }
    }
  }

  lemma WriteKeepsCarrying(s: State, e: Event)
    requires SavingCommitment(s) && e.WriteDone? && Enabled(s, e)
    ensures SavingCommitment(Apply(s, e))
  {
  }

  lemma CommitmentIsSaved(w: World, home: Record, s: State, e: Event)
    requires Inv(w, home, s) && Enabled(s, e) && Truthful(w, s, e)
    ensures SavingCommitment(Apply(s, e))
  {
    var t := Apply(s, e);
    if t.phase == SavingUncertain && HasHash(t.rec) {
      if e.AfterHash? {
        CommitmentIsMade(w, home, s);
      } else if e.WriteDone? {
        WriteKeepsCarrying(s, e);
      } else {
        SavingGoesOn(s, e);
        MemoryCommits(w, home, s, e, LastOf(s.rec).hash.value);
        StepWrites(s, e);
        CarryingGoesOn(s, t);
      }
    }
  }

  lemma CarryingGoesOn(s: State, t: State)
    requires SavingCommitment(s) && PhaseInv(s) && s.phase == SavingUncertain && Writes(s, t)
    requires t.rec == s.rec && t.wait == s.wait && HasHash(s.rec) && Commits(Mem(t), LastOf(s.rec).hash.value)
    ensures SavingCommitment(t)
  {
  }

  /** Nothing but the environment moves while uncertainty is being saved, and not the last hash. */
  lemma SavingGoesOn(s: State, e: Event)
    requires PhaseInv(s) && Enabled(s, e) && Apply(s, e).phase == SavingUncertain && !e.AfterHash?
    ensures s.phase == SavingUncertain && !Cancels(e) && !e.Crash? && HasHash(s.rec)
    ensures Apply(s, e).rec == s.rec
    ensures !e.WriteDone? ==> Apply(s, e).wait == s.wait
  {
  }

  lemma CommitmentIsMade(w: World, home: Record, s: State)
    requires Inv(w, home, s) && Enabled(s, AfterHash)
    ensures Commits(Mem(Apply(s, AfterHash)), LastOf(s.rec).hash.value)
  {
    var h, k := LastOf(s.rec).hash.value, |s.rec.attempts| - 1;
    var t := Apply(s, AfterHash);
    assert Uncancelled(t.rec.attempts[k], h);
    assert OneMatchingLine(s.lines, s.rec.attempts[k], s.rec);
    KeysFind(s.lines, t.lines, h);
  }

  ghost predicate CallsAreCommitted(s: State) {
    && (forall h <- s.calls :: Commits(Mem(s), h) && Durable(s, h))
    && (forall i, j :: 0 <= i < j < |s.calls| ==> s.calls[i] != s.calls[j])
  }

  lemma ReleaseIsNew(s: State)
    requires PhaseInv(s) && ReleaseInv(s) && Enabled(s, Release)
    ensures CallsAreCommitted(Apply(s, Release))
  {
    var h := LastOf(s.rec).hash.value;
    var t := Apply(s, Release);
    assert Mem(t) == Mem(s) && t.disk == s.disk && t.queue == s.queue;
    forall x | x in t.calls ensures Commits(Mem(t), x) && Durable(t, x) {
      assert x in s.calls || x == h;
    }
  }

  lemma OnlyReleaseCalls(s: State, e: Event)
    requires Enabled(s, e) && !e.Release?
    ensures Apply(s, e).calls == s.calls
  {
  }

  lemma ReleaseKeeps(w: World, home: Record, s: State, e: Event)
    requires Inv(w, home, s) && Enabled(s, e) && Truthful(w, s, e)
    ensures ReleaseInv(Apply(s, e))
  {
    var t := Apply(s, e);
    CommitmentIsSaved(w, home, s, e);
    if e.Release? {
      ReleaseIsNew(s);
    } else {
      OnlyReleaseCalls(s, e);
      forall h | h in s.calls ensures Commits(Mem(t), h) && Durable(t, h) {
        CallsStayCommitted(w, home, s, e, h);
      }
    }
    assert CallsAreCommitted(t) && SavingCommitment(t);
  }

  // ---- Authority ------------------------------------------------------------------------------------

  lemma PassingKeepsReservations(s: State, e: Event)
    requires Enabled(s, e) && IsPassing(e)
    ensures |Apply(s, e).rec.attempts| == |s.rec.attempts| + if e.Admit? then 1 else 0
  {
  }

  lemma OthersKeepReservations(s: State, e: Event)
    requires Enabled(s, e) && !IsPassing(e) && !e.Crash?
    ensures |Apply(s, e).rec.attempts| == |s.rec.attempts|
  {
  }

  lemma ReservationsStay(s: State, e: Event)
    requires Enabled(s, e) && !e.Crash?
    ensures |Apply(s, e).rec.attempts| == |s.rec.attempts| + if e.Admit? then 1 else 0
  {
    if IsPassing(e) {
      PassingKeepsReservations(s, e);
    } else {
      OthersKeepReservations(s, e);
    }
  }

  lemma CountsStayDurable(s: State, e: Event, n: nat)
    requires Enabled(s, e) && HeldDurably(s, n) && (n <= |s.rec.attempts|)
    ensures HeldDurably(Apply(s, e), n) && n <= |Apply(s, e).rec.attempts|
  {
    if e.Crash? {
      ResolutionAddsNothing(EndOnRestart(s.disk.rec, s.now), RestartLines(s.disk.lines));
    } else {
      ReservationsStay(s, e);
      if !e.WriteDone? {
        StepWrites(s, e);
      }
    }
  }

  ghost predicate ReservingInv(s: State) {
    && (s.phase in {Reserving, Unlocking} ==> forall n <- s.signed :: n < |s.rec.attempts|)
    && (s.phase == Reserving ==>
          && (s.wait.Queued? ==> forall i :: s.wait.place <= i < |s.queue| ==> Holds(s.queue[i], |s.rec.attempts|))
          && (s.wait == Saved ==> HeldDurably(s, |s.rec.attempts|)))
    && (s.phase == Unlocking ==> HeldDurably(s, |s.rec.attempts|))
  }

  lemma ReservationIsBeingSaved(s: State, e: Event)
    requires PhaseInv(s) && AuthorityInv(s) && e.Admit? && Enabled(s, e)
    ensures ReservingInv(Apply(s, e))
  {
  }

  lemma ReservationIsSaved(s: State)
    requires PhaseInv(s) && AuthorityInv(s) && Enabled(s, AfterReserve)
    ensures ReservingInv(Apply(s, AfterReserve))
  {
  }

  lemma ReservingWrites(s: State, e: Event)
    requires PhaseInv(s) && AuthorityInv(s) && e.WriteDone? && Enabled(s, e)
    ensures ReservingInv(Apply(s, e))
  {
  }

  lemma ReservingGoesOn(s: State, e: Event)
    requires Enabled(s, e) && !e.Admit? && !e.AfterReserve? && Apply(s, e).phase in {Reserving, Unlocking}
    ensures s.phase == Apply(s, e).phase && !e.Crash? && Apply(s, e).signed == s.signed
    ensures !e.WriteDone? ==> Apply(s, e).wait == s.wait
  {
  }

  lemma ReservingKeeps(s: State, e: Event)
    requires PhaseInv(s) && AuthorityInv(s) && Enabled(s, e)
    ensures ReservingInv(Apply(s, e))
  {
    if e.Admit? {
      ReservationIsBeingSaved(s, e);
    } else if e.AfterReserve? {
      ReservationIsSaved(s);
    } else if e.WriteDone? {
      ReservingWrites(s, e);
    } else if Apply(s, e).phase in {Reserving, Unlocking} {
      ReservingGoesOn(s, e);
      ReservationsStay(s, e);
      StepWrites(s, e);
    }
  }

  lemma SignaturesCount(s: State, e: Event)
    requires Enabled(s, e)
    ensures Apply(s, e).signed
         == if e.Sign? || e.RefuseSignature? then s.signed + [LastOf(s.rec).n] else s.signed
  {
  }

  ghost predicate SignedInv(s: State) {
    && (forall i, j :: 0 <= i < j < |s.signed| ==> s.signed[i] < s.signed[j])
    && (forall n <- s.signed :: 1 <= n <= |s.rec.attempts| && HeldDurably(s, n))
  }

  /** The secret signs for the newest reservation, which is counted durably and was never signed for. */
  lemma SignatureIsCounted(w: World, home: Record, s: State, e: Event)
    requires Kept(w, home, Mem(s)) && PhaseInv(s) && AuthorityInv(s) && Enabled(s, e) && (e.Sign? || e.RefuseSignature?)
    ensures LastOf(s.rec).n == |s.rec.attempts| >= 1 && HeldDurably(s, |s.rec.attempts|)
    ensures forall n <- s.signed :: n < |s.rec.attempts|
  {
  }

  lemma SignedKeeps(s: State, e: Event)
    requires AuthorityInv(s) && Enabled(s, e)
    requires e.Sign? || e.RefuseSignature? ==>
               && LastOf(s.rec).n == |s.rec.attempts| >= 1 && HeldDurably(s, |s.rec.attempts|)
               && forall n <- s.signed :: n < |s.rec.attempts|
    ensures SignedInv(Apply(s, e))
  {
    var t := Apply(s, e);
    SignaturesCount(s, e);
    assert forall i :: 0 <= i < |s.signed| ==> s.signed[i] in s.signed;
    forall n | n in t.signed ensures 1 <= n <= |t.rec.attempts| && HeldDurably(t, n) {
      assert n in s.signed || n == |s.rec.attempts|;
      CountsStayDurable(s, e, n);
    }
  }

  lemma AuthorityKeeps(w: World, home: Record, s: State, e: Event)
    requires Inv(w, home, s) && Enabled(s, e)
    ensures AuthorityInv(Apply(s, e))
  {
    ReservingKeeps(s, e);
    if e.Sign? || e.RefuseSignature? {
      SignatureIsCounted(w, home, s, e);
    }
    SignedKeeps(s, e);
    assert SignedInv(Apply(s, e)) && ReservingInv(Apply(s, e));
  }

  // ---- Finality -------------------------------------------------------------------------------------

  lemma ResolvedStaysPassed(r: Record, s: Record, f: Refresh)
    requires OnlyResolves(r, s) && Passed(r, f)
    ensures Passed(s, f)
  {
    forall i | 0 <= i < f.next && i < |s.attempts| && s.attempts[i].inclusion.Some?
      ensures s.attempts[i].finalized || s.attempts[i].doubt || s.attempts[i].inclusion.value.height > f.final
    {
      assert AttemptResolves(r.attempts[i], s.attempts[i]);
    }
  }

  /** While finality is read, only history or that reading moves inclusions. */
  lemma FinalityGoesOn(s: State, e: Event)
    requires PhaseInv(s) && Enabled(s, e) && Apply(s, e).refresh.Some?
    requires !e.RefreshOne? && !e.ResolveHistory? && !e.RefreshStart?
    ensures s.refresh == Apply(s, e).refresh && Apply(s, e).rec == s.rec
  {
  }

  lemma OnePasses(rec: Record, r: Refresh, canonical: Option<Hash>)
    requires Passed(rec, r) && r.next < |rec.attempts|
    ensures Passed(RefreshAttempt(rec, r.next, r.final, canonical), Refresh(r.final, r.next + 1))
  {
  }

  lemma FinalityKeeps(s: State, e: Event)
    requires PhaseInv(s) && RefreshInv(s) && Enabled(s, e)
    ensures RefreshInv(Apply(s, e))
  {
    if Apply(s, e).refresh.Some? {
      if e.ResolveHistory? {
        ResolutionAddsNothing(s.rec, s.lines);
        ResolvedStaysPassed(s.rec, Resolve(s.rec, s.lines), s.refresh.value);
      } else if e.RefreshOne? {
        OnePasses(s.rec, s.refresh.value, e.canonical);
      } else if !e.RefreshStart? {
        FinalityGoesOn(s, e);
      }
    }
  }

  /** Every step keeps the whole invariant. */
  lemma StepKeeps(w: World, home: Record, s: State, e: Event)
    requires Inv(w, home, s) && Enabled(s, e) && Truthful(w, s, e)
    ensures Inv(w, home, Apply(s, e))
  {
    LedgerKeeps(w, home, s, e);
    PhaseKeeps(s, e);
    ReleaseKeeps(w, home, s, e);
    AuthorityKeeps(w, home, s, e);
    FinalityKeeps(s, e);
  }
}
