/** What holds in every state a session can reach, however its steps and the environment interleave. */
module SessionGuarantees {
  import opened MintTypes
  import opened SpendAccounting
  import opened SessionSnapshots
  import opened StoredLedger
  import opened LedgerSoundness
  import opened SpendWorld
  import opened HistoryResolution
  import opened SessionMachine
  import opened SessionSafety
  import opened SessionSteps
  import opened SessionReleases
  import SessionView

  // ---- Every reachable state keeps the invariant ----------------------------------------------------

  lemma StartKeeps(w: World, s: State)
    requires Init(s)
    ensures Inv(w, s.rec, s)
  {
    assert Kept(w, s.rec, Mem(s));
  }

  lemma {:induction false} RunKeeps(w: World, start: State, events: seq<Event>, s: State)
    requires Init(start) && Run(w, start, events, s)
    ensures Inv(w, start.rec, s)
    decreases |events|
  {
    if events == [] {
      StartKeeps(w, start);
    } else {
      var k := |events| - 1;
      assert LastStep(w, start, events, s);
      var before: State :|
        Run(w, start, events[..k], before) && Enabled(before, events[k]) && Truthful(w, before, events[k])
        && s == Apply(before, events[k]);
      RunKeeps(w, start, events[..k], before);
      StepKeeps(w, start.rec, before, events[k]);
    }
  }

  lemma ReachableKeeps(w: World, s: State) returns (home: Record)
    requires Reachable(w, s)
    ensures Inv(w, home, s)
  {
    var start: State, events: seq<Event> :| Init(start) && Run(w, start, events, s);
    RunKeeps(w, start, events, s);
    home := start.rec;
  }

  lemma Stepped(w: World, s: State, e: Event)
    requires Reachable(w, s) && Enabled(s, e) && Truthful(w, s, e)
    ensures Reachable(w, Apply(s, e))
  {
    var start: State, events: seq<Event> :| Init(start) && Run(w, start, events, s);
    var longer := events + [e];
    assert longer[..|longer| - 1] == events;
    assert LastStep(w, start, longer, Apply(s, e));
    assert Run(w, start, longer, Apply(s, e));
  }

  /** The wallet's memory, its storage and every write on its way. */
  ghost predicate IsCopy(s: State, x: Snap) {
    x == Mem(s) || x == s.disk || x in s.queue
  }

  lemma CopyIsKept(w: World, home: Record, s: State, x: Snap)
    requires LedgerInv(w, home, s) && IsCopy(s, x)
    ensures Kept(w, home, x)
  {
  }

  // ---- The ledger always loads ----------------------------------------------------------------------

  /** Whatever interleaving, failed write or crash left it, every copy passes the validator. */
  lemma EveryCopyPassesTheValidator(w: World, s: State, x: Snap)
    requires Reachable(w, s) && IsCopy(s, x)
    ensures RecordOk(x.rec, x.lines, !x.rec.ended)
  {
    var home := ReachableKeeps(w, s);
    CopyIsKept(w, home, s, x);
    SoundRecordPasses(x.rec, x.lines);
  }

  /** The snapshot of every copy stays within the session's terms, whatever history calls final. */
  lemma EverySnapshotStaysWithinTerms(w: World, s: State, x: Snap, final: set<Hash>)
    requires Reachable(w, s) && IsCopy(s, x)
    ensures SnapshotParses(x.rec.terms, SnapshotOf(x.rec, final)) && Room(x.rec, final) >= 0
  {
    var home := ReachableKeeps(w, s);
    CopyIsKept(w, home, s, x);
    SnapshotStaysWithinTerms(x.rec, final);
  }

  // ---- Lemma S over runs ----------------------------------------------------------------------------

  /** Lemma S for every copy of the ledger in every reachable state, and every chain. */
  lemma CapHoldsInEveryRun(w: World, s: State, x: Snap, tip: Hash)
    requires Reachable(w, s) && IsCopy(s, x) && Lawful(w, x.rec.terms.lotAmount)
    ensures ChosenCharge(x.rec.attempts, Winners(w, tip, x.rec.attempts), x.rec.ticket) <= x.rec.terms.maxSpend
    ensures Chosen(Winners(w, tip, x.rec.attempts)) <= x.rec.terms.maxLots
  {
    var home := ReachableKeeps(w, s);
    CopyIsKept(w, home, s, x);
    CapHoldsOnEveryChain(w, x.rec, tip);
  }

  ghost predicate SucceededOn(w: World, tip: Hash, hash: Hash) {
    exists h :: 0 <= h < |w.path(tip)| && hash in w.wins(w.path(tip)[h])
  }

  /** Of everything ever handed to the transport, no chain holds more successes than the approved lots. */
  lemma ReleasedSuccessesAreBounded(w: World, s: State, tip: Hash)
    requires Reachable(w, s) && Lawful(w, s.rec.terms.lotAmount)
    ensures |set h <- s.calls | SucceededOn(w, tip, h)| <= s.rec.terms.maxLots
  {
    var home := ReachableKeeps(w, s);
    CapHoldsInEveryRun(w, s, Mem(s), tip);
    HashesAreDistinct(w, s.rec);
    WinnersAreCounted(w, tip, s.rec.attempts);
    var released := set h <- s.calls | SucceededOn(w, tip, h);
    forall h | h in released ensures h in WinnerHashes(w, tip, s.rec.attempts) {
      assert RecordCommits(s.rec, h);
      assert s.rec.attempts[AttemptOf(s.rec, h)] in s.rec.attempts;
    }
    SubsetIsSmaller(released, WinnerHashes(w, tip, s.rec.attempts));
  }

  lemma SubsetIsSmaller(a: set<Hash>, b: set<Hash>)
    requires a <= b
    ensures |a| <= |b|
  {
    assert b == a + (b - a);
  }

  // ---- Crash consistency of release -----------------------------------------------------------------

  /** When the bytes go to the transport, storage holds the very ledger of memory: the payment uncertain, with
      its hash, and its history line marked as perhaps released. */
  lemma ReleaseFollowsDurableUncertainty(w: World, s: State)
    requires Reachable(w, s) && Enabled(s, Release)
    ensures s.disk.rec == s.rec && LastOf(s.disk.rec).status == Uncertain
    ensures LinesCommit(s.disk.lines, LastOf(s.rec).hash.value)
    ensures LastOf(s.rec).hash.value !in s.calls && s.stop.None? && s.now < s.rec.deadline
  {
    var home := ReachableKeeps(w, s);
  }

  /** A released payment is never taken for one that was not, in memory, in storage or in any later write. */
  lemma ReleasedIsNeverCancelled(w: World, s: State, x: Snap, hash: Hash)
    requires Reachable(w, s) && IsCopy(s, x) && hash in s.calls
    ensures Commits(x, hash)
  {
    var home := ReachableKeeps(w, s);
  }

  /** Until history finalizes a released payment as run or expired, it gates its account, and history alone
      says so: the session ledger may be lost. */
  lemma ReleasedGatesTheAccount(w: World, s: State, x: Snap, hash: Hash)
    requires Reachable(w, s) && IsCopy(s, x) && hash in s.calls
    ensures HasLine(x.lines, hash)
    ensures LineOf(x.lines, hash).status in {HistoryFinalized, HistoryExpired}
         || Gates(x.lines, s.rec.owner, s.rec.genesis)
  {
    var home := ReachableKeeps(w, s);
    CopyIsKept(w, home, s, x);
    ReleasedIsNeverCancelled(w, s, x, hash);
    CommittedLineIsOurs(x, hash);
  }

  /** The same after a crash at any point and a restart from storage. */
  lemma CrashKeepsReleases(w: World, s: State, hash: Hash)
    requires Reachable(w, s) && hash in s.calls
    ensures Commits(Mem(Apply(s, Crash)), hash)
    ensures LineOf(Apply(s, Crash).lines, hash).status in {HistoryFinalized, HistoryExpired}
         || Gates(Apply(s, Crash).lines, s.rec.owner, s.rec.genesis)
  {
    var home := ReachableKeeps(w, s);
    var t := Apply(s, Crash);
    StepKeeps(w, home, s, Crash);
    Stepped(w, s, Crash);
    ReleasedIsNeverCancelled(w, t, Mem(t), hash);
    ReleasedGatesTheAccount(w, t, Mem(t), hash);
    assert SameSession(home, t.rec) && SameSession(home, s.rec);
  }

  // ---- Authority ------------------------------------------------------------------------------------

  /** Every signature, kept or refused afterwards, is made while nothing stopped the session and before its
      deadline, for a reservation that storage counts and that was never signed for. */
  lemma SignaturesAreAuthorized(w: World, s: State, e: Event)
    requires Reachable(w, s) && Enabled(s, e) && (e.Sign? || e.RefuseSignature?)
    ensures s.stop.None? && s.now < s.rec.deadline && LastOf(s.rec).status == Reserved
    ensures e.Sign? ==> |s.lines| < 200
    ensures |s.disk.rec.attempts| >= LastOf(s.rec).n && s.disk.rec.used >= LastOf(s.rec).n
    ensures LastOf(s.rec).n !in s.signed && Apply(s, e).signed == s.signed + [LastOf(s.rec).n]
  {
    var home := ReachableKeeps(w, s);
    SignatureIsCounted(w, home, s, e);
    SignaturesCount(s, e);
  }

  /** A payment is handed over at most once, each for its own reservation, and no copy of the ledger ever
      counts fewer signatures than were made, nor more than were approved. */
  lemma SignaturesAreCounted(w: World, s: State, x: Snap)
    requires Reachable(w, s) && IsCopy(s, x)
    ensures |s.signed| <= x.rec.used <= x.rec.terms.maxAttempts
    ensures forall i, j :: 0 <= i < j < |s.signed| ==> s.signed[i] < s.signed[j]
    ensures forall i, j :: 0 <= i < j < |s.calls| ==> s.calls[i] != s.calls[j]
    ensures |s.calls| <= x.rec.used
  {
    var home := ReachableKeeps(w, s);
    CopyIsKept(w, home, s, x);
    forall n | n in s.signed ensures 1 <= n <= x.rec.used {
      assert Holds(x, n);
    }
    AscendingFits(s.signed, x.rec.used);
    var hashes := set a <- x.rec.attempts | a.hash.Some? :: a.hash.value;
    HashesAreFew(x.rec.attempts);
    forall h | h in s.calls ensures h in hashes {
      ReleasedIsNeverCancelled(w, s, x, h);
      assert x.rec.attempts[AttemptOf(x.rec, h)] in x.rec.attempts;
    }
    DistinctFits(s.calls, hashes);
  }

  lemma {:induction false} AscendingFits(s: seq<nat>, n: nat)
    requires forall i, j :: 0 <= i < j < |s| ==> s[i] < s[j]
    requires forall x <- s :: 1 <= x <= n
    ensures |s| <= n
  {
    if s != [] {
      var k := |s| - 1;
      assert s[k] in s;
      forall x | x in s[..k] ensures 1 <= x <= s[k] - 1 {
        assert x in s;
      }
      AscendingFits(s[..k], s[k] - 1);
    }
  }

  lemma {:induction false} HashesAreFew(attempts: seq<Attempt>)
    ensures |set a <- attempts | a.hash.Some? :: a.hash.value| <= |attempts|
  {
    var hashes := set a <- attempts | a.hash.Some? :: a.hash.value;
    if attempts == [] {
      assert hashes == {};
    } else {
      var k := |attempts| - 1;
      HashesAreFew(attempts[..k]);
      assert attempts == attempts[..k] + [attempts[k]];
      var fewer := set a <- attempts[..k] | a.hash.Some? :: a.hash.value;
      assert hashes == fewer + if attempts[k].hash.Some? then {attempts[k].hash.value} else {};
    }
  }

  lemma {:induction false} DistinctFits(s: seq<Hash>, all: set<Hash>)
    requires forall i, j :: 0 <= i < j < |s| ==> s[i] != s[j]
    requires forall x <- s :: x in all
    ensures |s| <= |all|
  {
    if s != [] {
      var k := |s| - 1;
      assert s[k] in s;
      DistinctFits(s[..k], all - {s[k]});
    }
  }

  /** Storage counts no more signatures than a later write, and no write more than memory. */
  ghost predicate CountsAscend(s: State) {
    && s.disk.rec.used <= s.rec.used
    && (forall i :: 0 <= i < |s.queue| ==> s.disk.rec.used <= s.queue[i].rec.used <= s.rec.used)
    && (forall i, j :: 0 <= i < j < |s.queue| ==> s.queue[i].rec.used <= s.queue[j].rec.used)
  }

  lemma CountsStayAscending(s: State, e: Event)
    requires CountsAscend(s) && Enabled(s, e)
    ensures CountsAscend(Apply(s, e)) && Apply(s, e).disk.rec.used >= s.disk.rec.used
    ensures Apply(s, e).rec.used >= if e.Crash? then s.disk.rec.used else s.rec.used
  {
    if e.WriteDone? {
      WriteKeepsCounts(s, e);
    } else if e.Crash? {
      ResolutionAddsNothing(EndOnRestart(s.disk.rec, s.now), RestartLines(s.disk.lines));
    } else {
      if e.ResolveHistory? {
        ResolutionAddsNothing(s.rec, s.lines);
      } else {
        UsedStays(s, e);
      }
      StepWrites(s, e);
      WritesKeepCounts(s, Apply(s, e));
    }
  }

  lemma WriteKeepsCounts(s: State, e: Event)
    requires CountsAscend(s) && e.WriteDone? && Enabled(s, e)
    ensures CountsAscend(Apply(s, e)) && Apply(s, e).rec == s.rec
    ensures Apply(s, e).disk.rec.used >= s.disk.rec.used
  {
  }

  lemma WritesKeepCounts(s: State, t: State)
    requires CountsAscend(s) && Writes(s, t) && t.rec.used >= s.rec.used
    ensures CountsAscend(t)
  {
  }

  lemma UsedStays(s: State, e: Event)
    requires Enabled(s, e) && !e.Crash? && !e.ResolveHistory?
    ensures Apply(s, e).rec.used == s.rec.used + if e.Admit? then 1 else 0
  {
  }

  lemma {:induction false} RunCounts(w: World, start: State, events: seq<Event>, s: State)
    requires Init(start) && Run(w, start, events, s)
    ensures CountsAscend(s)
    decreases |events|
  {
    if events != [] {
      var k := |events| - 1;
      assert LastStep(w, start, events, s);
      var before: State :|
        Run(w, start, events[..k], before) && Enabled(before, events[k]) && Truthful(w, before, events[k])
        && s == Apply(before, events[k]);
      RunCounts(w, start, events[..k], before);
      CountsStayAscending(before, events[k]);
    }
  }

  /** The stored signature counter never goes back, whatever fails or crashes; nor does memory's, but to
      storage's at a restart, which still counts every signature made. */
  lemma UsedNeverDecreases(w: World, s: State, e: Event)
    requires Reachable(w, s) && Enabled(s, e) && Truthful(w, s, e)
    ensures Apply(s, e).disk.rec.used >= s.disk.rec.used
    ensures Apply(s, e).rec.used >= if e.Crash? then s.disk.rec.used else s.rec.used
    ensures forall n <- s.signed :: s.disk.rec.used >= n && Apply(s, e).rec.used >= n
  {
    var start: State, events: seq<Event> :| Init(start) && Run(w, start, events, s);
    RunCounts(w, start, events, s);
    CountsStayAscending(s, e);
    var home := ReachableKeeps(w, s);
    forall n | n in s.signed ensures s.disk.rec.used >= n {
      assert HeldDurably(s, n);
    }
  }

  lemma NobodyRestarts(s: State, e: Event)
    requires Enabled(s, e)
    ensures s.stop.Some? ==> Apply(s, e).stop == s.stop
    ensures s.phase == Down ==> Apply(s, e).phase == Down
  {
  }

  lemma AStopStays(s: State, e: Event)
    requires Enabled(s, e) && (s.stop.Some? || s.phase == Down)
    ensures Apply(s, e).signed == s.signed && Apply(s, e).calls == s.calls
    ensures Apply(s, e).stop.Some? || Apply(s, e).phase == Down
  {
    NobodyRestarts(s, e);
    SignaturesCount(s, e);
    OnlyReleaseCalls(s, e);
  }

  /** Once stopped or restarted, a session never signs and never releases again. */
  lemma {:induction false} StoppedMeansStopped(w: World, s: State, events: seq<Event>, t: State)
    requires (s.stop.Some? || s.phase == Down) && Run(w, s, events, t)
    ensures t.signed == s.signed && t.calls == s.calls
    ensures t.stop.Some? || t.phase == Down
    decreases |events|
  {
    if events != [] {
      var k := |events| - 1;
      assert LastStep(w, s, events, t);
      var before: State :|
        Run(w, s, events[..k], before) && Enabled(before, events[k]) && Truthful(w, before, events[k])
        && t == Apply(before, events[k]);
      StoppedMeansStopped(w, s, events[..k], before);
      AStopStays(before, events[k]);
    }
  }

  // ---- Records without a controller -----------------------------------------------------------------

  /** Once no controller runs it, a record has ended: the stale end of a later approval finds nothing in it. */
  lemma NothingIsStale(w: World, s: State, owner: Id, genesis: Id)
    requires Reachable(w, s) && !Running(s)
    ensures !IsStale(s.rec, owner, genesis) && StaleLines([s.rec], s.lines, owner, genesis) == s.lines
  {
    var home := ReachableKeeps(w, s);
    assert [s.rec][..0] == [];
  }

  lemma {:induction false} OnlyLine(lines: seq<Line>, l: Line)
    requires l in lines && CountLines(lines, l.hash) == 1
    ensures HasLine(lines, l.hash) && LineOf(lines, l.hash) == l
  {
    NoSuchLine(lines[1..], l.hash);
    assert lines == [lines[0]] + lines[1..];
    if lines[0].hash != l.hash {
      OnlyLine(lines[1..], l);
    }
  }

  /** Pruning drops a record only after history finalized everything it released. */
  lemma PrunedRecordIsOver(w: World, s: State, hash: Hash)
    requires Reachable(w, s) && SettledRecord(s.rec, s.lines) && hash in s.calls
    ensures !Running(s) && HasLine(s.lines, hash)
    ensures LineOf(s.lines, hash).status in {HistoryFinalized, HistoryExpired}
  {
    var home := ReachableKeeps(w, s);
    ReleasedIsNeverCancelled(w, s, Mem(s), hash);
    var a := s.rec.attempts[AttemptOf(s.rec, hash)];
    assert OneMatchingLine(s.lines, a, s.rec) && a in s.rec.attempts;
    var l :| l in s.lines && l.hash == hash && IsFinal(l.status);
    OnlyLine(s.lines, l);
  }

  // ---- Order and finality ---------------------------------------------------------------------------

  /** Each inclusion is at most as high as the next birth, which is below the next inclusion; and a final
      inclusion follows only final or doubted ones. */
  lemma InclusionsAreOrdered(w: World, s: State, x: Snap, i: nat, j: nat)
    requires Reachable(w, s) && IsCopy(s, x)
    requires i < j < |x.rec.attempts| && x.rec.attempts[j].inclusion.Some?
    ensures x.rec.attempts[i].inclusion.Some?
    ensures x.rec.attempts[i].inclusion.value.height <= x.rec.attempts[i + 1].birth.height
         <= x.rec.attempts[j].birth.height < x.rec.attempts[j].inclusion.value.height
    ensures x.rec.attempts[j].finalized ==> x.rec.attempts[i].finalized || x.rec.attempts[i].doubt
  {
    var home := ReachableKeeps(w, s);
    CopyIsKept(w, home, s, x);
    InclusionsAscend(x.rec, i, j);
  }

  /** What the window shows of any copy of a session's ledger: with nothing outstanding everything is at rest but for
      a right used without a lot in an open block, and with everything at rest only a trailing lost race is shown. */
  lemma WindowInAnyRun(w: World, s: State, x: Snap, final: set<Hash>)
    requires Reachable(w, s) && IsCopy(s, x)
    ensures
      var attempts := x.rec.attempts;
      var shown := SessionView.Outstanding(SnapshotOf(x.rec, final), SessionView.Payments(attempts, final));
      && (!shown ==> (SessionView.AllAtRest(attempts, final) <==> forall a <- attempts :: !SessionView.OpenAnomaly(a)))
      && (SessionView.AllAtRest(attempts, final) ==> (shown <==> exists i :: SessionView.TrailingRace(attempts, i)))
  {
    var home := ReachableKeeps(w, s);
    CopyIsKept(w, home, s, x);
    if !SessionView.Outstanding(SnapshotOf(x.rec, final), SessionView.Payments(x.rec.attempts, final)) {
      SessionView.NothingOutstandingMeansRest(x.rec, final);
    }
    if SessionView.AllAtRest(x.rec.attempts, final) {
      SessionView.RestShowsTrailingRaces(x.rec, final);
    }
  }
}
