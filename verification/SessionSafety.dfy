/** What every run of a session keeps: its ledger, its durable copy, its authority and its releases. */
module SessionSafety {
  import opened MintTypes
  import opened SpendAccounting
  import opened StoredLedger
  import opened LedgerSoundness
  import opened SpendWorld
  import opened Classification
  import opened HistoryResolution
  import opened SessionMachine
  import ChainSearch
  import SessionSnapshots

  function Mem(s: State): Snap {
    Snap(s.rec, s.lines)
  }

  // ---- Invariants -----------------------------------------------------------------------------------

  ghost predicate SameSession(r: Record, s: Record) {
    s == r.(ended := s.ended, reason := s.reason, endedAt := s.endedAt, used := s.used,
            reorganized := s.reorganized, attempts := s.attempts)
  }

  ghost predicate Kept(w: World, home: Record, x: Snap) {
    Sound(x.rec, x.lines) && Grounded(w, x.rec) && SameSession(home, x.rec)
  }

  /** Memory, storage and every write on its way hold a sound ledger. */
  ghost predicate LedgerInv(w: World, home: Record, s: State) {
    && Kept(w, home, Mem(s)) && Kept(w, home, s.disk)
    && forall i :: 0 <= i < |s.queue| ==> Kept(w, home, s.queue[i])
  }

  /** Where the controller is says what the last attempt is. */
  ghost predicate PhaseInv(s: State) {
    && (Running(s) <==> !s.rec.ended)
    && (s.refresh.Some? ==> s.phase == Passing || s.phase == Settling)
    && (s.wait.Queued? ==> s.wait.place < |s.queue|)
    && (s.phase in {Reserving, Unlocking, SavingHash, SavingUncertain, Sending} ==> s.rec.attempts != [])
    && (s.phase in {SavingHash, SavingUncertain, Sending} ==> HasHash(s.rec))
    && (s.phase in {Reserving, SavingHash, SavingUncertain} ==> s.wait != NoWait)
    && match s.phase
       case Passing =>
         s.rec.attempts != [] ==>
           LastOf(s.rec).status in {Uncertain, Sent, Included, Minted, LostRace}
           && LastOf(s.rec).hash.Some? && LastOf(s.rec).hash.value in s.calls
       case Reserving => LastOf(s.rec).status == Reserved
       case Unlocking => LastOf(s.rec).status == Reserved
       case SavingHash => LastOf(s.rec).status == Signed && LastOf(s.rec).hash.value !in s.calls
       case SavingUncertain => LastOf(s.rec).status == Uncertain && LastOf(s.rec).hash.value !in s.calls
       case Sending => LastOf(s.rec).status == Uncertain && LastOf(s.rec).hash.value in s.calls
       case _ => true
  }

  ghost predicate Uncancelled(a: Attempt, hash: Hash) {
    a.hash == Some(hash) && a.status !in {Reserved, Signed, Cancelled}
  }

  ghost predicate RecordCommits(rec: Record, hash: Hash) {
    exists i :: 0 <= i < |rec.attempts| && Uncancelled(rec.attempts[i], hash)
  }

  ghost predicate LinesCommit(lines: seq<Line>, hash: Hash) {
    HasLine(lines, hash) && LineOf(lines, hash).status !in {SignedNotSubmitted, CancelledBeforeBroadcast}
  }

  /** A copy of the wallet from which the payment can never be taken for one that was not released. */
  ghost predicate Commits(x: Snap, hash: Hash) {
    RecordCommits(x.rec, hash) && LinesCommit(x.lines, hash)
  }

  ghost predicate Durable(s: State, hash: Hash) {
    Commits(s.disk, hash) && forall i :: 0 <= i < |s.queue| ==> Commits(s.queue[i], hash)
  }

  /** A write of the very ledger memory holds, with the payment committed in history. */
  ghost predicate Carries(x: Snap, rec: Record, hash: Hash) {
    x.rec == rec && LinesCommit(x.lines, hash)
  }

  /** While uncertainty is being saved, the awaited write and every later one carry it. */
  ghost predicate SavingCommitment(s: State) {
    s.phase == SavingUncertain && HasHash(s.rec) ==>
      var h := LastOf(s.rec).hash.value;
      && Commits(Mem(s), h)
      && (s.wait.Queued? ==> forall i :: s.wait.place <= i < |s.queue| ==> Carries(s.queue[i], s.rec, h))
      && (s.wait == Saved ==>
            Carries(s.disk, s.rec, h) && forall i :: 0 <= i < |s.queue| ==> Carries(s.queue[i], s.rec, h))
  }

  /** Every payment handed to the transport is committed in memory, in storage and in every later write. */
  ghost predicate ReleaseInv(s: State) {
    && (forall h <- s.calls :: Commits(Mem(s), h) && Durable(s, h))
    && (forall i, j :: 0 <= i < j < |s.calls| ==> s.calls[i] != s.calls[j])
    && SavingCommitment(s)
  }

  ghost predicate Holds(x: Snap, n: nat) {
    |x.rec.attempts| >= n
  }

  ghost predicate HeldDurably(s: State, n: nat) {
    Holds(s.disk, n) && forall i :: 0 <= i < |s.queue| ==> Holds(s.queue[i], n)
  }

  /** Signatures are made for different reservations, each counted durably before. */
  ghost predicate AuthorityInv(s: State) {
    && (forall i, j :: 0 <= i < j < |s.signed| ==> s.signed[i] < s.signed[j])
    && (forall n <- s.signed :: 1 <= n <= |s.rec.attempts| && HeldDurably(s, n))
    && (s.phase in {Reserving, Unlocking} ==> forall n <- s.signed :: n < |s.rec.attempts|)
    && (s.phase == Reserving ==>
          && (s.wait.Queued? ==> forall i :: s.wait.place <= i < |s.queue| ==> Holds(s.queue[i], |s.rec.attempts|))
          && (s.wait == Saved ==> HeldDurably(s, |s.rec.attempts|)))
    && (s.phase == Unlocking ==> HeldDurably(s, |s.rec.attempts|))
  }

  ghost predicate Passed(rec: Record, r: Refresh) {
    forall i :: 0 <= i < r.next && i < |rec.attempts| && rec.attempts[i].inclusion.Some? ==>
      rec.attempts[i].finalized || rec.attempts[i].doubt || rec.attempts[i].inclusion.value.height > r.final
  }

  /** Every inclusion the finality check passed is final, in doubt, or above the final block. */
  ghost predicate RefreshInv(s: State) {
    s.refresh.Some? ==> Passed(s.rec, s.refresh.value)
  }

  ghost predicate Inv(w: World, home: Record, s: State) {
    LedgerInv(w, home, s) && PhaseInv(s) && ReleaseInv(s) && AuthorityInv(s) && RefreshInv(s)
  }

  // ---- Memory changes, one kind at a time -----------------------------------------------------------

  /** The last attempt moves on, and history with it. */
  lemma LastMoveKept(w: World, home: Record, x: Snap, a: Attempt, lines: seq<Line>)
    requires Kept(w, home, x) && x.rec.attempts != []
    requires SameOrigin(LastOf(x.rec), a) && a.doubt == LastOf(x.rec).doubt && a.hash == LastOf(x.rec).hash
    requires AttemptOk(a, |x.rec.attempts| - 1, x.rec.used) && a.status != Settled
    requires a.finalized ==> LastOf(x.rec).finalized
    requires AdmitsSuccessor(a.status) ==> InItsBlock(w, a)
    requires SameKeys(x.lines, lines)
    ensures Kept(w, home, Snap(WithLast(x.rec, a), lines))
    ensures SameChain(x.rec, WithLast(x.rec, a))
  {
    LastMoves(x.rec, a);
    GroundStands(w, x.rec, WithLast(x.rec, a));
    SameHashesKeepJournal(x.rec, WithLast(x.rec, a), x.lines);
    KeysKeepJournal(WithLast(x.rec, a), x.lines, lines);
  }

  /** The signature: a new hash, and its history line. */
  lemma SignatureKept(w: World, home: Record, x: Snap, hash: Hash)
    requires Kept(w, home, x) && x.rec.attempts != [] && LastOf(x.rec).status == Reserved
    requires !HasLine(x.lines, hash) && w.birth(hash) == LastOf(x.rec).birth
    ensures
      var a := LastOf(x.rec);
      Kept(w, home, Snap(WithLast(x.rec, a.(status := Signed, hash := Some(hash))),
                         [NewLine(x.rec, a, hash)] + x.lines))
  {
    var a := LastOf(x.rec);
    var b := a.(status := Signed, hash := Some(hash));
    var k := |x.rec.attempts| - 1;
    assert AttemptOk(a, k, x.rec.used);
    var rec := WithLast(x.rec, b);
    LastMoves(x.rec, b);
    GroundStands(w, x.rec, rec);
    var l := NewLine(x.rec, a, hash);
    var lines := [l] + x.lines;
    NewLineKeepsJournal(x.rec, x.lines, l);
    assert lines[1..] == x.lines;
    NoSuchLine(x.lines, hash);
    assert OneMatchingLine(lines, b, rec);
    forall i | 0 <= i < |rec.attempts| ensures OneMatchingLine(lines, rec.attempts[i], rec) {
      assert i < k ==> OneMatchingLine(lines, x.rec.attempts[i], x.rec);
    }
  }

  /** Doubts, and nothing else. */
  lemma DoubtKept(w: World, home: Record, x: Snap, rec: Record)
    requires Kept(w, home, x) && OnlyDoubts(x.rec, rec) && SameChain(x.rec, rec) && Chained(rec) && Shaped(rec)
    ensures Kept(w, home, Snap(rec, x.lines))
  {
    GroundStands(w, x.rec, rec);
    SameHashesKeepJournal(x.rec, rec, x.lines);
  }

  /** History and other operations rewrite lines. */
  lemma LinesKept(w: World, home: Record, x: Snap, lines: seq<Line>)
    requires Kept(w, home, x) && SameKeys(x.lines, lines)
    ensures Kept(w, home, Snap(x.rec, lines))
  {
    KeysKeepJournal(x.rec, x.lines, lines);
  }

  /** A cancelled, never released attempt. */
  lemma CancelKept(w: World, home: Record, s: State)
    requires Kept(w, home, Mem(s))
    ensures Kept(w, home, Mem(CancelLast(s)))
    ensures SameChain(s.rec, CancelLast(s).rec) && SameKeys(s.lines, CancelLast(s).lines)
  {
    if s.rec.attempts != [] {
      var a := LastOf(s.rec);
      assert AttemptOk(a, |s.rec.attempts| - 1, s.rec.used);
      if a.status in {Reserved, Signed, Uncertain} && (a.hash.None? || a.hash.value !in s.calls) {
        if a.hash.Some? {
          StatusKeepsKeys(s.lines, a.hash.value, CancelledBeforeBroadcast);
        }
        LastMoveKept(w, home, Mem(s), a.(status := Cancelled), CancelLast(s).lines);
      }
    }
  }

  /** The controller's own end of the record. */
  lemma EndKept(w: World, home: Record, x: Snap, reason: EndReason, now: int)
    requires Kept(w, home, x)
    ensures Kept(w, home, Snap(x.rec.(ended := true, reason := Some(reason), endedAt := Some(now)), x.lines))
  {
    var rec := x.rec.(ended := true, reason := Some(reason), endedAt := Some(now));
    assert SameChain(x.rec, rec);
    ChainStands(x.rec, rec);
    GroundStands(w, x.rec, rec);
    assert SomeDoubt(rec) <==> SomeDoubt(x.rec);
    SameHashesKeepJournal(x.rec, rec, x.lines);
  }

  /** Restart from storage. */
  lemma RestartKept(w: World, home: Record, x: Snap, now: int)
    requires Kept(w, home, x)
    ensures Kept(w, home, Snap(Resolve(EndOnRestart(x.rec, now), RestartLines(x.lines)), RestartLines(x.lines)))
  {
    var lines := RestartLines(x.lines);
    var rec := EndOnRestart(x.rec, now);
    RestartedRecordIsSound(x.rec, x.lines, now);
    GroundStands(w, x.rec, rec);
    ResolveKept(w, home, Snap(rec, lines));
  }

  lemma ResolvedIsGrounded(w: World, r: Record, s: Record)
    requires Grounded(w, r) && SameChain(r, s) && OnlyResolves(r, s)
    ensures Grounded(w, s)
  {
    if r.attempts != [] {
      assert AttemptResolves(LastOf(r), LastOf(s));
    }
    GroundStands(w, r, s);
  }

  lemma ResolveKept(w: World, home: Record, x: Snap)
    requires Kept(w, home, x)
    ensures Kept(w, home, Snap(Resolve(x.rec, x.lines), x.lines))
  {
    var rec := Resolve(x.rec, x.lines);
    ResolvedRecordIsSound(x.rec, x.lines, x.lines);
    ResolutionAddsNothing(x.rec, x.lines);
    ResolvedIsGrounded(w, x.rec, rec);
    ResolvedIsSameSession(home, x.rec, rec);
  }

  lemma ResolvedIsSameSession(home: Record, r: Record, s: Record)
    requires SameSession(home, r) && OnlyResolves(r, s)
    ensures SameSession(home, s)
  {
  }

  /** The canonical block is the recorded one: the inclusion is final, after every earlier one. */
  lemma FinalKept(w: World, home: Record, x: Snap, k: nat)
    requires Kept(w, home, x) && k < |x.rec.attempts| && x.rec.attempts[k].inclusion.Some?
    requires forall i :: 0 <= i < k ==> x.rec.attempts[i].finalized || x.rec.attempts[i].doubt
    ensures Kept(w, home, Snap(MarkFinal(x.rec, k), x.lines)) && SameChain(x.rec, MarkFinal(x.rec, k))
  {
    MarkFinalStands(x.rec, k);
    GroundStands(w, x.rec, MarkFinal(x.rec, k));
    SameHashesKeepJournal(x.rec, MarkFinal(x.rec, k), x.lines);
  }

  lemma PassedBelow(rec: Record, r: Refresh)
    requires Chained(rec) && AttemptsOk(rec) && r.next < |rec.attempts| && rec.attempts[r.next].inclusion.Some?
    requires rec.attempts[r.next].inclusion.value.height <= r.final && Passed(rec, r)
    ensures forall i :: 0 <= i < r.next ==> rec.attempts[i].finalized || rec.attempts[i].doubt
  {
    forall i | 0 <= i < r.next ensures rec.attempts[i].finalized || rec.attempts[i].doubt {
      InclusionsAscend(rec, i, r.next);
    }
  }

  /** One inclusion checked against the canonical chain. */
  lemma RefreshKept(w: World, home: Record, x: Snap, r: Refresh, canonical: Option<Hash>)
    requires Kept(w, home, x) && r.next < |x.rec.attempts| && Passed(x.rec, r)
    ensures Kept(w, home, Snap(RefreshAttempt(x.rec, r.next, r.final, canonical), x.lines))
    ensures SameChain(x.rec, RefreshAttempt(x.rec, r.next, r.final, canonical))
  {
    var k := r.next;
    var a := x.rec.attempts[k];
    assert AttemptOk(a, k, x.rec.used);
    if a.inclusion.Some? && a.inclusion.value.height <= r.final && !a.finalized && !a.doubt {
      if canonical == Some(a.inclusion.value.hash) {
        PassedBelow(x.rec, r);
        FinalKept(w, home, x, k);
      } else {
        DoubtFromStands(x.rec, k);
        DoubtKept(w, home, x, DoubtFrom(x.rec, k));
      }
    }
  }

  /** Each inclusion is at most as high as the next birth, which is below the next inclusion. */
  lemma InclusionsAscend(rec: Record, i: nat, k: nat)
    requires Chained(rec) && AttemptsOk(rec) && i < k < |rec.attempts| && rec.attempts[k].inclusion.Some?
    ensures rec.attempts[i].inclusion.Some?
    ensures rec.attempts[i].inclusion.value.height <= rec.attempts[i + 1].birth.height
         <= rec.attempts[k].birth.height < rec.attempts[k].inclusion.value.height
  {
    assert LedgerSoundness.Followed(rec, i) && AttemptOk(rec.attempts[k], k, rec.used);
    BirthsAscend(rec, i + 1, k);
  }
}
