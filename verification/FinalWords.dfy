/** When history's last word on a payment of a session stays, and which steps write over it. */
module FinalWords {
  import opened MintTypes
  import opened StoredLedger
  import opened LedgerSoundness
  import opened SpendWorld
  import opened SessionMachine
  import opened SessionSafety
  import opened SessionSteps
  import opened SessionReleases
  import opened SessionGuarantees
  import ChainSearch

  // ---- The line of one payment ----------------------------------------------------------------------

  /** Payment `k` has the hash `h`. */
  ghost predicate IsPayment(s: State, k: nat, h: Hash) {
    k < |s.rec.attempts| && s.rec.attempts[k].hash == Some(h)
  }

  lemma OwnLine(s: State, k: nat, h: Hash)
    requires Journaled(s.rec, s.lines) && IsPayment(s, k, h)
    ensures HasLine(s.lines, h) && LineOf(s.lines, h).session == Some(s.rec.id)
  {
    assert OneMatchingLine(s.lines, s.rec.attempts[k], s.rec);
  }

  lemma StatusOfLine(lines: seq<Line>, changed: Hash, status: JournalStatus, h: Hash)
    requires HasLine(lines, h)
    ensures HasLine(SetStatus(lines, changed, status), h)
    ensures LineOf(SetStatus(lines, changed, status), h)
         == if changed == h then LineOf(lines, h).(status := status) else LineOf(lines, h)
  {
    StatusKeepsKeys(lines, changed, status);
    KeysFind(lines, SetStatus(lines, changed, status), h);
  }

  lemma NewLineLeaves(lines: seq<Line>, l: Line, h: Hash)
    requires HasLine(lines, h) && l.hash != h
    ensures HasLine([l] + lines, h) && LineOf([l] + lines, h) == LineOf(lines, h)
  {
    assert ([l] + lines)[1..] == lines;
  }

  lemma ChangedLineLeaves(lines: seq<Line>, i: nat, l: Line, h: Hash)
    requires HasLine(lines, h) && i < |lines| && SameKey(lines[i], l)
    ensures HasLine(lines[i := l], h)
    ensures LineOf(lines[i := l], h) == if i == FindLine(lines, h) then l else LineOf(lines, h)
  {
    KeysFind(lines, lines[i := l], h);
  }

  // ---- Cancelled payments ---------------------------------------------------------------------------

  ghost predicate CancelledLine(lines: seq<Line>, h: Hash) {
    HasLine(lines, h) && LineOf(lines, h).status == CancelledBeforeBroadcast
  }

  /** A running session cancels a payment in history only as it ends, and then has nothing left to cancel. */
  ghost predicate WordsInv(s: State) {
    && (Running(s) && s.rec.attempts != [] && LastOf(s.rec).status == Reserved ==> LastOf(s.rec).hash.None?)
    && (Running(s) && !s.phase.Ending? ==>
          forall k, h :: IsPayment(s, k, h) ==> !CancelledLine(s.lines, h))
    && (s.phase.Ending? ==> !HasUnreleased(s))
  }

  /** `cancel` would find something to cancel. */
  predicate HasUnreleased(s: State) {
    s.rec.attempts != [] &&
    var a := LastOf(s.rec);
    a.status in {Reserved, Signed, Uncertain} && (a.hash.None? || a.hash.value !in s.calls)
  }

  /** The steps that give the entry of the payment being signed a status of their own. */
  predicate Overwrites(s: State, e: Event, h: Hash) {
    s.rec.attempts != [] && LastOf(s.rec).hash == Some(h) && (e.AfterHash? || e.Answer? || e.Cancel?)
  }

  /** The status such a step gives it: never a final one, unless the payment is cancelled. */
  function OwnWord(e: Event): JournalStatus {
    if e.Cancel? then CancelledBeforeBroadcast
    else if e.Answer? && e.acknowledged then Submitted
    else BroadcastUncertain
  }

  /** History reports on this very entry. */
  predicate Reports(s: State, e: Event, h: Hash) {
    e.History? && e.line == FindLine(s.lines, h)
  }

  ghost predicate Wrote(s: State, e: Event, h: Hash, t: State)
    requires HasLine(s.lines, h)
  {
    HasLine(t.lines, h) &&
    var l, m := LineOf(s.lines, h), LineOf(t.lines, h);
    if Overwrites(s, e, h) then m == l.(status := OwnWord(e))
    else if Reports(s, e, h) then m == l.(status := e.status, height := e.height, nativeSuccess := e.success,
                                          accepted := e.accepted)
    else m == l
  }

  predicate Signs(e: Event) {
    Cancels(e) || e.Sign? || e.AfterHash? || e.Answer?
  }

  predicate ReadsHistory(e: Event) {
    e.History? || e.OtherLine? || e.OtherStatus?
  }

  lemma CancellingWrites(s: State, e: Event, h: Hash)
    requires PhaseInv(s) && WordsInv(s) && Enabled(s, e) && HasLine(s.lines, h)
    requires Cancels(e)
    ensures Wrote(s, e, h, Apply(s, e))
  {
    if HasHash(s.rec) {
      StatusOfLine(s.lines, LastOf(s.rec).hash.value, CancelledBeforeBroadcast, h);
    }
  }

  lemma SignWrites(w: World, s: State, hash: Hash, h: Hash)
    requires Enabled(s, Sign(hash)) && Truthful(w, s, Sign(hash)) && HasLine(s.lines, h)
    ensures Wrote(s, Sign(hash), h, Apply(s, Sign(hash)))
  {
    NewLineLeaves(s.lines, NewLine(s.rec, LastOf(s.rec), hash), h);
  }

  lemma MarkingWrites(s: State, e: Event, h: Hash)
    requires Enabled(s, e) && HasLine(s.lines, h) && (e.AfterHash? || e.Answer?)
    ensures Wrote(s, e, h, Apply(s, e))
  {
    StatusOfLine(s.lines, LastOf(s.rec).hash.value, OwnWord(e), h);
  }

  lemma ReadingWrites(w: World, s: State, e: Event, h: Hash)
    requires Enabled(s, e) && Truthful(w, s, e) && HasLine(s.lines, h) && ReadsHistory(e)
    requires LineOf(s.lines, h).session == Some(s.rec.id)
    ensures Wrote(s, e, h, Apply(s, e))
  {
    if e.OtherLine? {
      NewLineLeaves(s.lines, e.entry, h);
    } else {
      ChangedLineLeaves(s.lines, e.line, Apply(s, e).lines[e.line], h);
    }
  }

  lemma OthersWrite(s: State, e: Event, h: Hash)
    requires Enabled(s, e) && HasLine(s.lines, h) && !Signs(e) && !ReadsHistory(e) && !e.Crash?
    ensures Wrote(s, e, h, Apply(s, e))
  {
  }

  /** What every step but a restart does to the entry of one of the session's payments. */
  lemma StepWords(w: World, s: State, e: Event, k: nat, h: Hash)
    requires Journaled(s.rec, s.lines) && PhaseInv(s) && WordsInv(s) && Enabled(s, e) && Truthful(w, s, e)
    requires !e.Crash? && IsPayment(s, k, h)
    ensures HasLine(s.lines, h) && Wrote(s, e, h, Apply(s, e))
  {
    OwnLine(s, k, h);
    if e.Sign? {
      SignWrites(w, s, e.hash, h);
    } else if e.AfterHash? || e.Answer? {
      MarkingWrites(s, e, h);
    } else if Signs(e) {
      CancellingWrites(s, e, h);
    } else if ReadsHistory(e) {
      ReadingWrites(w, s, e, h);
    } else {
      OthersWrite(s, e, h);
    }
  }

  // ---- Every run keeps it ---------------------------------------------------------------------------

  lemma FollowingHasReleased(s: State, e: Event)
    requires PhaseInv(s) && Enabled(s, e) && (e.Follow? || e.Fate? || e.LoseChain?) && Apply(s, e).phase.Ending?
    ensures !HasUnreleased(Apply(s, e))
  {
  }

  lemma JudgingHasReleased(s: State, e: Event)
    requires PhaseInv(s) && Enabled(s, e) && (e.Judge? || e.Admit? || e.Quit?) && Apply(s, e).phase.Ending?
    ensures !HasUnreleased(Apply(s, e))
  {
  }

  lemma CancellingLeavesNone(s: State, e: Event)
    requires Enabled(s, e) && Signs(e) && Apply(s, e).phase.Ending?
    ensures !HasUnreleased(Apply(s, e))
  {
  }

  lemma EndingGoesOn(s: State, e: Event)
    requires PhaseInv(s) && Enabled(s, e) && !IsPassing(e) && !Signs(e) && Apply(s, e).phase.Ending?
    ensures s.phase.Ending? && Apply(s, e).calls == s.calls
    ensures e.ResolveHistory? || Apply(s, e).rec == s.rec
  {
  }

  lemma EndingHasReleased(s: State, e: Event)
    requires PhaseInv(s) && WordsInv(s) && Enabled(s, e) && Apply(s, e).phase.Ending?
    ensures !HasUnreleased(Apply(s, e))
  {
    if e.Follow? || e.Fate? || e.LoseChain? {
      FollowingHasReleased(s, e);
    } else if IsPassing(e) {
      JudgingHasReleased(s, e);
    } else if Signs(e) {
      CancellingLeavesNone(s, e);
    } else {
      EndingGoesOn(s, e);
    }
  }

  /** The payment a step adds to a running session's record, if any, is reserved and not signed. */
  lemma AdmittedIsUnsigned(s: State, e: Event)
    requires e.Admit? && Enabled(s, e)
    ensures Apply(s, e).rec.attempts[..|Apply(s, e).rec.attempts| - 1] == s.rec.attempts
    ensures LastOf(Apply(s, e).rec).hash.None? && Running(s) && !s.phase.Ending?
  {
  }

  /** The step leaves a running session with the payments it had, and only a signature gives one its hash. */
  ghost predicate OnlyNames(s: State, e: Event, t: State) {
    && Running(s) && (s.phase.Ending? ==> t.phase.Ending?) && !e.Crash?
    && |t.rec.attempts| == |s.rec.attempts|
    && forall k :: 0 <= k < |s.rec.attempts| ==>
         t.rec.attempts[k].hash == s.rec.attempts[k].hash || (e.Sign? && t.rec.attempts[k].hash == Some(e.hash))
  }

  lemma PassingNamesNone(s: State, e: Event)
    requires Enabled(s, e) && IsPassing(e) && !e.Admit? && Running(Apply(s, e))
    ensures OnlyNames(s, e, Apply(s, e))
  {
  }

  lemma SigningNames(s: State, e: Event)
    requires Enabled(s, e) && Signs(e) && Running(Apply(s, e))
    ensures OnlyNames(s, e, Apply(s, e))
  {
  }

  lemma OthersNameNone(s: State, e: Event)
    requires PhaseInv(s) && Enabled(s, e) && !IsPassing(e) && !Signs(e) && Running(Apply(s, e))
    ensures OnlyNames(s, e, Apply(s, e))
  {
  }

  lemma OnlySignNames(s: State, e: Event)
    requires PhaseInv(s) && Enabled(s, e) && !e.Admit? && Running(Apply(s, e))
    ensures OnlyNames(s, e, Apply(s, e))
  {
    if IsPassing(e) {
      PassingNamesNone(s, e);
    } else if Signs(e) {
      SigningNames(s, e);
    } else {
      OthersNameNone(s, e);
    }
  }

  ghost predicate ReservedBefore(s: State, t: State) {
    t.rec.attempts != [] &&
    (LastOf(t.rec).status == Reserved ==>
       s.rec.attempts != [] && LastOf(s.rec).status == Reserved && LastOf(t.rec).hash == LastOf(s.rec).hash)
  }

  lemma PassingReservesNone(s: State, e: Event)
    requires Enabled(s, e) && IsPassing(e) && !e.Admit? && s.rec.attempts != []
    ensures ReservedBefore(s, Apply(s, e))
  {
  }

  lemma SigningReservesNone(s: State, e: Event)
    requires Enabled(s, e) && (e.Sign? || e.AfterHash? || e.Answer?) && s.rec.attempts != []
    ensures ReservedBefore(s, Apply(s, e))
  {
  }

  lemma CancellingReservesNone(s: State, e: Event)
    requires Enabled(s, e) && Cancels(e) && s.rec.attempts != []
    ensures ReservedBefore(s, Apply(s, e))
  {
  }

  lemma OthersReserveNone(s: State, e: Event)
    requires PhaseInv(s) && Enabled(s, e) && !IsPassing(e) && !Signs(e) && Running(Apply(s, e)) && s.rec.attempts != []
    ensures ReservedBefore(s, Apply(s, e))
  {
  }

  lemma NewLineIsFound(lines: seq<Line>, l: Line)
    ensures HasLine([l] + lines, l.hash) && LineOf([l] + lines, l.hash) == l
  {
  }

  lemma ReservedStaysUnsigned(s: State, e: Event)
    requires PhaseInv(s) && WordsInv(s) && Enabled(s, e) && Running(Apply(s, e))
    requires Apply(s, e).rec.attempts != [] && LastOf(Apply(s, e).rec).status == Reserved
    ensures LastOf(Apply(s, e).rec).hash.None?
  {
    if e.Admit? {
      AdmittedIsUnsigned(s, e);
    } else {
      OnlySignNames(s, e);
      if IsPassing(e) {
        PassingReservesNone(s, e);
      } else if Cancels(e) {
        CancellingReservesNone(s, e);
      } else if Signs(e) {
        SigningReservesNone(s, e);
      } else {
        OthersReserveNone(s, e);
      }
    }
  }

  lemma CancelEnds(s: State, e: Event)
    requires e.Cancel? && Enabled(s, e)
    ensures Apply(s, e).phase.Ending?
  {
  }

  lemma OldStaysUncancelled(w: World, s: State, e: Event, k: nat, h: Hash)
    requires PhaseInv(s) && Journaled(s.rec, s.lines) && WordsInv(s) && Enabled(s, e) && Truthful(w, s, e)
    requires !e.Crash? && !e.Cancel? && IsPayment(s, k, h) && !CancelledLine(s.lines, h)
    ensures !CancelledLine(Apply(s, e).lines, h)
  {
    StepWords(w, s, e, k, h);
  }

  lemma SignedIsNotCancelled(s: State, hash: Hash)
    requires Enabled(s, Sign(hash))
    ensures !CancelledLine(Apply(s, Sign(hash)).lines, hash)
  {
    NewLineIsFound(s.lines, NewLine(s.rec, LastOf(s.rec), hash));
  }

  lemma WasPayment(s: State, e: Event, k: nat, h: Hash)
    requires PhaseInv(s) && Enabled(s, e) && Running(Apply(s, e)) && IsPayment(Apply(s, e), k, h)
    ensures IsPayment(s, k, h) || (e.Sign? && e.hash == h)
    ensures Running(s) && (s.phase.Ending? ==> Apply(s, e).phase.Ending?) && !e.Crash?
  {
    if e.Admit? {
      AdmittedIsUnsigned(s, e);
    } else {
      OnlySignNames(s, e);
    }
  }

  lemma WordsKeep(w: World, home: Record, s: State, e: Event)
    requires Inv(w, home, s) && WordsInv(s) && Enabled(s, e) && Truthful(w, s, e)
    ensures WordsInv(Apply(s, e))
  {
    var t := Apply(s, e);
    if t.phase.Ending? {
      EndingHasReleased(s, e);
    }
    if Running(t) && t.rec.attempts != [] && LastOf(t.rec).status == Reserved {
      ReservedStaysUnsigned(s, e);
    }
    if Running(t) && !t.phase.Ending? {
      forall k, h | IsPayment(t, k, h) ensures !CancelledLine(t.lines, h) {
        WasPayment(s, e, k, h);
        if e.Cancel? {
          CancelEnds(s, e);
        } else if IsPayment(s, k, h) {
          OldStaysUncancelled(w, s, e, k, h);
        } else {
          SignedIsNotCancelled(s, h);
        }
      }
    }
  }

  lemma {:induction false} RunWords(w: World, start: State, events: seq<Event>, s: State)
    requires Init(start) && Run(w, start, events, s)
    ensures WordsInv(s)
    decreases |events|
  {
    if events != [] {
      var k := |events| - 1;
      assert LastStep(w, start, events, s);
      var before: State :|
        Run(w, start, events[..k], before) && Enabled(before, events[k]) && Truthful(w, before, events[k])
        && s == Apply(before, events[k]);
      RunWords(w, start, events[..k], before);
      RunKeeps(w, start, events[..k], before);
      WordsKeep(w, start.rec, before, events[k]);
    }
  }

  lemma ReachableWords(w: World, s: State)
    requires Reachable(w, s)
    ensures WordsInv(s) && PhaseInv(s) && Journaled(s.rec, s.lines)
  {
    var start: State, events: seq<Event> :| Init(start) && Run(w, start, events, s);
    RunWords(w, start, events, s);
    RunKeeps(w, start, events, s);
  }

  // ---- When a final word stays ----------------------------------------------------------------------

  lemma WordStays(s: State, e: Event, k: nat, h: Hash, t: State)
    requires PhaseInv(s) && WordsInv(s) && IsPayment(s, k, h) && HasLine(s.lines, h) && Wrote(s, e, h, t)
    requires IsFinal(LineOf(s.lines, h).status) && !Reports(s, e, h) && (e.Cancel? ==> CanCancel(s))
    ensures LineOf(t.lines, h) == LineOf(s.lines, h) <==> !Overwrites(s, e, h)
  {
    assert e.Cancel? ==> !CancelledLine(s.lines, h);
  }

  /** A final entry of the session survives a step exactly unless the step marks this very payment: as perhaps
      released (P14), with the transport's answer (P15), or cancelled because it never left. */
  lemma FinalWordStays(w: World, s: State, e: Event, k: nat, h: Hash)
    requires Reachable(w, s) && Enabled(s, e) && Truthful(w, s, e) && !e.Crash?
    requires IsPayment(s, k, h) && HasLine(s.lines, h) && IsFinal(LineOf(s.lines, h).status)
    ensures HasLine(Apply(s, e).lines, h)
    ensures LineOf(Apply(s, e).lines, h) == LineOf(s.lines, h) <==> !Overwrites(s, e, h)
  {
    ReachableWords(w, s);
    StepWords(w, s, e, k, h);
    WordStays(s, e, k, h, Apply(s, e));
  }

  /** A restart keeps exactly the final words that were saved, and cancels a payment saved as only signed. */
  lemma SavedWordStays(w: World, s: State, k: nat, h: Hash)
    requires Reachable(w, s) && IsPayment(s, k, h) && HasLine(s.lines, h) && IsFinal(LineOf(s.lines, h).status)
    ensures HasLine(Apply(s, Crash).lines, h) <==> HasLine(s.disk.lines, h)
    ensures HasLine(s.disk.lines, h) ==>
              var l, saved := LineOf(s.lines, h), LineOf(s.disk.lines, h);
              LineOf(Apply(s, Crash).lines, h) == l
              <==> saved == l || (saved.status == SignedNotSubmitted && l == saved.(status := CancelledBeforeBroadcast))
  {
    KeysFind(s.disk.lines, RestartLines(s.disk.lines), h);
  }

  /** A payment cancelled in history stays so for the rest of the run. */
  lemma CancelledStays(w: World, s: State, e: Event, k: nat, h: Hash)
    requires Reachable(w, s) && Enabled(s, e) && Truthful(w, s, e) && !e.Crash?
    requires IsPayment(s, k, h) && CancelledLine(s.lines, h)
    ensures CancelledLine(Apply(s, e).lines, h)
  {
    ReachableWords(w, s);
    StepWords(w, s, e, k, h);
  }

  // ---- Final words are written over -----------------------------------------------------------------

  /** What history reports of `h` when it finalizes the payment. */
  function Finalizing(s: State, h: Hash): Event {
    History(FindLine(s.lines, h), HistoryFinalized, None, None, None)
  }

  /** Right before each such step history may finalize the entry, and the step then replaces that word. */
  lemma HistoryMayComeFirst(w: World, s: State, e: Event, k: nat, h: Hash)
    requires Reachable(w, s) && Enabled(s, e) && Overwrites(s, e, h) && IsPayment(s, k, h)
    requires HasLine(s.lines, h) && !IsFinal(LineOf(s.lines, h).status)
    ensures Enabled(s, Finalizing(s, h))
    ensures
      var t := Apply(s, Finalizing(s, h));
      && Reachable(w, t) && Enabled(t, e) && IsPayment(t, k, h) && Overwrites(t, e, h)
      && HasLine(t.lines, h) && LineOf(t.lines, h).status == HistoryFinalized
      && HasLine(Apply(t, e).lines, h) && LineOf(Apply(t, e).lines, h).status == OwnWord(e) != HistoryFinalized
  {
    HistoryFinalizes(w, s, k, h);
    LastWord(w, Apply(s, Finalizing(s, h)), e, k, h);
  }

  lemma HistoryFinalizes(w: World, s: State, k: nat, h: Hash)
    requires Reachable(w, s) && IsPayment(s, k, h) && HasLine(s.lines, h) && !IsFinal(LineOf(s.lines, h).status)
    ensures Enabled(s, Finalizing(s, h)) && Reachable(w, Apply(s, Finalizing(s, h)))
    ensures
      var t := Apply(s, Finalizing(s, h));
      && t == s.(lines := t.lines) && HasLine(t.lines, h) && LineOf(t.lines, h).status == HistoryFinalized
  {
    Stepped(w, s, Finalizing(s, h));
    ChangedLineLeaves(s.lines, FindLine(s.lines, h), Apply(s, Finalizing(s, h)).lines[FindLine(s.lines, h)], h);
  }

  lemma LastWord(w: World, s: State, e: Event, k: nat, h: Hash)
    requires Reachable(w, s) && Enabled(s, e) && Overwrites(s, e, h) && IsPayment(s, k, h) && HasLine(s.lines, h)
    ensures HasLine(Apply(s, e).lines, h) && LineOf(Apply(s, e).lines, h).status == OwnWord(e)
  {
    ReachableWords(w, s);
    StepWords(w, s, e, k, h);
  }

  function FirstRecord(): Record {
    Record(0, 0, 0, Terms(0, 1, 1, 1, 1, 1), 0, 1, 0, 100_000, false, None, None, 0, false, [])
  }

  function FirstAdmission(): Event {
    var at := Position(1, 1, 0);
    Admit([ChainSearch.ChainBlock(0, [], 0), ChainSearch.ChainBlock(1, [], 0)],
          AttestedAsset(Block(1, 1), 0, true, 1, 1, 0, Some(at), Some(NextLot(0, true, 1, 1, 1, at)), 0),
          Account(0, 10, 0), Quote(true, Block(1, 1), 0, 1, 0, 0, 0), 0, 100_000, 2)
  }

  function FirstState(): State {
    State(FirstRecord(), [], Snap(FirstRecord(), []), [], NoWait, Passing, None, None, 0, [], [])
  }

  lemma FirstLotIsAdmitted()
    ensures Enabled(FirstState(), FirstAdmission()) && Truthful(SmallWorld(1), FirstState(), FirstAdmission())
    ensures |Apply(FirstState(), FirstAdmission()).rec.attempts| == 1
    ensures LastOf(Apply(FirstState(), FirstAdmission()).rec).birth == Block(1, 1)
  {
  }

  lemma FirstStateIsReachable(w: World)
    ensures Reachable(w, FirstState())
  {
    assert Init(FirstState()) && Run(w, FirstState(), [], FirstState());
  }

  /** A session in `SmallWorld` reserves its first lot. */
  lemma FirstLotIsReserved() returns (s: State)
    ensures Reachable(SmallWorld(1), s) && s.phase == Reserving && s.wait == Queued(0) && |s.queue| == 1
    ensures s.lines == [] && s.calls == [] && Authorized(s)
    ensures |s.rec.attempts| == 1 && s.rec.attempts[0].birth == Block(1, 1)
  {
    FirstStateIsReachable(SmallWorld(1));
    FirstLotIsAdmitted();
    Stepped(SmallWorld(1), FirstState(), FirstAdmission());
    s := Apply(FirstState(), FirstAdmission());
  }

  /** The awaited write, the only one under way, succeeds. */
  lemma WriteSucceeds(w: World, s: State) returns (t: State)
    requires Reachable(w, s) && s.wait == Queued(0) && |s.queue| == 1
    ensures Reachable(w, t) && t == s.(disk := s.queue[0], queue := [], wait := Saved)
  {
    Stepped(w, s, WriteDone(true, true));
    t := Apply(s, WriteDone(true, true));
  }

  lemma FirstLotIsCounted() returns (s: State)
    ensures Reachable(SmallWorld(1), s) && CanSign(s) && s.queue == [] && s.lines == [] && s.calls == []
    ensures |s.rec.attempts| == 1 && s.rec.attempts[0].birth == Block(1, 1)
  {
    s := FirstLotIsReserved();
    s := WriteSucceeds(SmallWorld(1), s);
    Stepped(SmallWorld(1), s, AfterReserve);
    s := Apply(s, AfterReserve);
  }

  /** And signs for it: the hash is saved, and uncertainty or a stop comes next. */
  lemma FirstLotIsSigned() returns (s: State)
    ensures Reachable(SmallWorld(1), s) && CanMarkUncertain(s) && s.queue == [] && IsPayment(s, 0, 7)
    ensures LastOf(s.rec).hash == Some(7)
    ensures HasLine(s.lines, 7) && LineOf(s.lines, 7).status == SignedNotSubmitted
  {
    s := FirstLotIsCounted();
    Stepped(SmallWorld(1), s, Sign(7));
    s := Apply(s, Sign(7));
    s := WriteSucceeds(SmallWorld(1), s);
  }

  lemma FirstLotIsUncertain() returns (s: State)
    ensures Reachable(SmallWorld(1), s) && CanRelease(s) && IsPayment(s, 0, 7) && LastOf(s.rec).hash == Some(7)
    ensures HasLine(s.lines, 7) && LineOf(s.lines, 7).status == BroadcastUncertain
  {
    s := FirstLotIsSigned();
    StatusOfLine(s.lines, 7, BroadcastUncertain, 7);
    Stepped(SmallWorld(1), s, AfterHash);
    s := Apply(s, AfterHash);
    s := WriteSucceeds(SmallWorld(1), s);
  }

  /** And hands it over. */
  lemma FirstLotIsSending() returns (s: State)
    ensures Reachable(SmallWorld(1), s) && s.phase == Sending && IsPayment(s, 0, 7) && LastOf(s.rec).hash == Some(7)
    ensures HasLine(s.lines, 7) && LineOf(s.lines, 7).status == BroadcastUncertain
  {
    s := FirstLotIsUncertain();
    Stepped(SmallWorld(1), s, Release);
    s := Apply(s, Release);
  }

  /** Each of these steps, in some run, replaces the word with which history finalized the payment. */
  lemma FinalWordsAreReplaced(e: Event) returns (s: State)
    requires e.AfterHash? || e.Answer? || e.Cancel?
    ensures Reachable(SmallWorld(1), s) && Enabled(s, e) && IsPayment(s, 0, 7) && Overwrites(s, e, 7)
    ensures HasLine(s.lines, 7) && LineOf(s.lines, 7).status == HistoryFinalized
    ensures HasLine(Apply(s, e).lines, 7) && LineOf(Apply(s, e).lines, 7).status == OwnWord(e) != HistoryFinalized
  {
    if e.Answer? {
      s := FirstLotIsSending();
    } else {
      s := FirstLotIsSigned();
    }
    HistoryMayComeFirst(SmallWorld(1), s, e, 0, 7);
    s := Apply(s, Finalizing(s, 7));
  }
}
