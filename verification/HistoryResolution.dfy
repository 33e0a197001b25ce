/** What history's final word does to an ended record. */
module HistoryResolution {
  import opened MintTypes
  import opened SpendAccounting
  import opened SessionSnapshots
  import opened StoredLedger
  import opened LedgerSoundness

  // ---- One direction only ---------------------------------------------------------------------------

  ghost predicate AttemptResolves(a: Attempt, b: Attempt) {
    && SameOrigin(a, b) && b.hash == a.hash && (a.doubt ==> b.doubt)
    && (b.status == a.status || (IsUnresolved(a) && b.status in {Settled, Expired, Cancelled}))
    && ((b.inclusion == a.inclusion && b.finalized == a.finalized) || (IsUnresolved(a) && b.inclusion.None?))
  }

  /** Verdicts stay, doubts stay, and only an unresolved payment takes a fate, never a lot. */
  ghost predicate OnlyResolves(r: Record, s: Record) {
    && s == r.(reorganized := s.reorganized, attempts := s.attempts)
    && (r.reorganized ==> s.reorganized)
    && |s.attempts| == |r.attempts|
    && forall i :: 0 <= i < |r.attempts| ==> AttemptResolves(r.attempts[i], s.attempts[i])
  }

  lemma FateOnlyResolves(rec: Record, k: nat, l: Line)
    requires k < |rec.attempts| && IsUnresolved(rec.attempts[k])
    ensures OnlyResolves(rec, rec.(attempts := rec.attempts[k := ResolvedAttempt(rec.attempts[k], l)]))
  {
  }

  lemma StepOnlyResolves(rec: Record, lines: seq<Line>, k: nat)
    requires k < |rec.attempts|
    ensures OnlyResolves(rec, ResolveAt(rec, lines, k))
  {
    var a := rec.attempts[k];
    if a.hash.Some? && HasLine(lines, a.hash.value) && IsUnresolved(a) {
      var l := LineOf(lines, a.hash.value);
      var r := if NeverRan(l.status) && a.inclusion.Some? then DoubtFrom(rec, k) else rec;
      FateOnlyResolves(r, k, l);
      ResolvesTwice(rec, r, r.(attempts := r.attempts[k := ResolvedAttempt(r.attempts[k], l)]));
    }
  }

  lemma ResolvesTwice(r: Record, s: Record, t: Record)
    requires OnlyResolves(r, s) && OnlyResolves(s, t)
    ensures OnlyResolves(r, t)
  {
    forall i | 0 <= i < |r.attempts| ensures AttemptResolves(r.attempts[i], t.attempts[i]) {
      assert AttemptResolves(r.attempts[i], s.attempts[i]) && AttemptResolves(s.attempts[i], t.attempts[i]);
    }
  }

  lemma NextOnlyResolves(rec: Record, lines: seq<Line>, n: nat)
    requires n < |rec.attempts| && OnlyResolves(rec, ResolveUpto(rec, lines, n))
    ensures OnlyResolves(rec, ResolveUpto(rec, lines, n + 1))
  {
    StepOnlyResolves(ResolveUpto(rec, lines, n), lines, n);
    ResolvesTwice(rec, ResolveUpto(rec, lines, n), ResolveUpto(rec, lines, n + 1));
  }

  lemma {:induction false} ResolutionOnlyResolves(rec: Record, lines: seq<Line>, n: nat)
    requires n <= |rec.attempts|
    ensures OnlyResolves(rec, ResolveUpto(rec, lines, n))
  {
    if n > 0 {
      ResolutionOnlyResolves(rec, lines, n - 1);
      NextOnlyResolves(rec, lines, n - 1);
    }
  }

  ghost predicate AllResolve(before: seq<Attempt>, after: seq<Attempt>) {
    |before| == |after| && forall i :: 0 <= i < |before| ==> AttemptResolves(before[i], after[i])
  }

  ghost predicate SameTotals(before: seq<Attempt>, after: seq<Attempt>, ticket: nat) {
    && CouldSucceed(after, ticket) == CouldSucceed(before, ticket)
    && CountStatus(after, Minted) == CountStatus(before, Minted)
    && ProtocolSpent(after, ticket) <= ProtocolSpent(before, ticket)
  }

  lemma TotalsWithLast(before: seq<Attempt>, after: seq<Attempt>, ticket: nat)
    requires |before| == |after| > 0 && AttemptResolves(before[|before| - 1], after[|after| - 1])
    requires SameTotals(before[..|before| - 1], after[..|after| - 1], ticket)
    ensures SameTotals(before, after, ticket)
  {
  }

  lemma {:induction false} ResolvedTotals(before: seq<Attempt>, after: seq<Attempt>, ticket: nat)
    requires AllResolve(before, after)
    ensures SameTotals(before, after, ticket)
  {
    if before != [] {
      var k := |before| - 1;
      ResolvedTotals(before[..k], after[..k], ticket);
      TotalsWithLast(before, after, ticket);
    }
  }

  lemma {:induction false} ResolvedLots(before: seq<Attempt>, after: seq<Attempt>)
    requires AllResolve(before, after)
    ensures CountStatus(Verified(after), Minted) <= CountStatus(Verified(before), Minted)
  {
    if before != [] {
      var k := |before| - 1;
      ResolvedLots(before[..k], after[..k]);
      assert AttemptResolves(before[k], after[k]);
      LotsWithLast(before);
      LotsWithLast(after);
    }
  }

  /** Resolution never loosens a limit: the admission bound and the signature counter stay, verified lots and
      spends only shrink, and a running record is left alone. */
  lemma ResolutionAddsNothing(rec: Record, lines: seq<Line>)
    ensures OnlyResolves(rec, Resolve(rec, lines))
    ensures Resolve(rec, lines).used == rec.used
    ensures ProtocolBound(Resolve(rec, lines).attempts, rec.ticket) == ProtocolBound(rec.attempts, rec.ticket)
    ensures ProtocolSpent(Resolve(rec, lines).attempts, rec.ticket) <= ProtocolSpent(rec.attempts, rec.ticket)
    ensures CountStatus(Verified(Resolve(rec, lines).attempts), Minted) <= CountStatus(Verified(rec.attempts), Minted)
    ensures !rec.ended ==> Resolve(rec, lines) == rec
  {
    ResolutionOnlyResolves(rec, lines, |rec.attempts|);
    ResolvedTotals(rec.attempts, Resolve(rec, lines).attempts, rec.ticket);
    ResolvedLots(rec.attempts, Resolve(rec, lines).attempts);
  }

  // ---- Exactly which payments end in doubt ----------------------------------------------------------

  /** History finalized attempt `k` against the record, before anything was resolved. */
  ghost predicate Disputed(rec: Record, lines: seq<Line>, k: nat)
    requires k < |rec.attempts|
  {
    var a := rec.attempts[k];
    a.hash.Some? && HasLine(lines, a.hash.value) &&
    var l := LineOf(lines, a.hash.value);
    if IsUnresolved(a) then NeverRan(l.status) && a.inclusion.Some? else !a.doubt && Contradicts(a, l)
  }

  /** Attempt `k`'s dispute reaches attempt `j`. */
  ghost predicate Reaches(rec: Record, k: nat, j: nat)
    requires k < |rec.attempts| && j < |rec.attempts|
  {
    k == j || (k < j && MayHaveRun(rec.attempts[j]))
  }

  ghost predicate DoubtedBy(rec: Record, lines: seq<Line>, n: nat, j: nat)
    requires n <= |rec.attempts| && j < |rec.attempts|
  {
    rec.attempts[j].doubt || exists k :: 0 <= k < n && Disputed(rec, lines, k) && Reaches(rec, k, j)
  }

  ghost predicate Numbered(rec: Record) {
    forall i :: 0 <= i < |rec.attempts| ==> rec.attempts[i].n == i + 1
  }

  /** One resolution step spreads doubt exactly when history disputes that attempt. */
  lemma DoubtsOfOneStep(r: Record, lines: seq<Line>, k: nat, j: nat)
    requires Numbered(r) && k < |r.attempts| && j < |r.attempts|
    ensures ResolveAt(r, lines, k).attempts[j].doubt
       <==> r.attempts[j].doubt || (Disputed(r, lines, k) && Reaches(r, k, j))
    ensures j != k ==> ResolveAt(r, lines, k).attempts[j]
                       == r.attempts[j].(doubt := ResolveAt(r, lines, k).attempts[j].doubt)
    ensures j < k ==> ResolveAt(r, lines, k).attempts[j] == r.attempts[j]
  {
  }

  lemma {:induction false} DoubtsUpto(rec: Record, lines: seq<Line>, n: nat)
    requires Numbered(rec) && n <= |rec.attempts|
    ensures Numbered(ResolveUpto(rec, lines, n))
    ensures forall j :: n <= j < |rec.attempts| ==>
              ResolveUpto(rec, lines, n).attempts[j]
              == rec.attempts[j].(doubt := ResolveUpto(rec, lines, n).attempts[j].doubt)
    ensures forall j :: 0 <= j < |rec.attempts| ==>
              (ResolveUpto(rec, lines, n).attempts[j].doubt <==> DoubtedBy(rec, lines, n, j))
  {
    ResolutionOnlyResolves(rec, lines, n);
    if n > 0 {
      var k := n - 1;
      DoubtsUpto(rec, lines, k);
      var r := ResolveUpto(rec, lines, k);
      forall j | 0 <= j < |rec.attempts|
        ensures ResolveUpto(rec, lines, n).attempts[j].doubt <==> DoubtedBy(rec, lines, n, j)
        ensures n <= j ==> ResolveUpto(rec, lines, n).attempts[j]
                           == rec.attempts[j].(doubt := ResolveUpto(rec, lines, n).attempts[j].doubt)
      {
        DoubtsOfOneStep(r, lines, k, j);
        DisputesAgree(rec, lines, k, r, j);
      }
    } else {
      forall j | 0 <= j < |rec.attempts|
        ensures rec.attempts[j].doubt <==> DoubtedBy(rec, lines, 0, j)
      {
      }
    }
  }

  /** A dispute hidden by an earlier one reaches nobody the earlier one did not reach. */
  lemma DisputesAgree(rec: Record, lines: seq<Line>, k: nat, r: Record, j: nat)
    requires k < |rec.attempts| == |r.attempts| && j < |rec.attempts|
    requires r.attempts[k] == rec.attempts[k].(doubt := r.attempts[k].doubt)
    requires k <= j ==> r.attempts[j] == rec.attempts[j].(doubt := r.attempts[j].doubt)
    requires rec.attempts[k].doubt ==> r.attempts[k].doubt
    requires r.attempts[j].doubt <==> DoubtedBy(rec, lines, k, j)
    requires r.attempts[k].doubt <==> DoubtedBy(rec, lines, k, k)
    ensures r.attempts[j].doubt || (Disputed(r, lines, k) && Reaches(r, k, j)) <==> DoubtedBy(rec, lines, k + 1, j)
  {
    assert Reaches(r, k, j) <==> Reaches(rec, k, j);
    assert DoubtedBy(rec, lines, k + 1, j)
      <==> DoubtedBy(rec, lines, k, j) || (Disputed(rec, lines, k) && Reaches(rec, k, j));
    if Disputed(rec, lines, k) && Reaches(rec, k, j) && !Disputed(r, lines, k) {
      var e :| 0 <= e < k && Disputed(rec, lines, e) && Reaches(rec, e, k);
      assert Reaches(rec, e, j);
    }
  }

  /** Doubt after resolution, exactly: an earlier doubt, or a dispute with history at this payment or at an
      earlier one if this one may have run. */
  lemma DoubtsAfterResolution(rec: Record, lines: seq<Line>, j: nat)
    requires rec.ended && Numbered(rec) && j < |rec.attempts|
    ensures Resolve(rec, lines).attempts[j].doubt <==> DoubtedBy(rec, lines, |rec.attempts|, j)
  {
    DoubtsUpto(rec, lines, |rec.attempts|);
  }

  // ---- The same in the fields of attempts and lines -------------------------------------------------

  /** History's final line refutes what the record says of `a`: a payment that never ran although it has a block, or one
      that ran although it was ruled out; or, for a verdict, another height, another native result or another
      acceptance. An open verdict counts only while it is not in doubt. */
  ghost predicate Refutes(a: Attempt, l: Line) {
    var gone := l.status == HistoryExpired || l.status == CancelledBeforeBroadcast;
    var ran := l.status == HistoryFinalized;
    if a.status in {Reserved, Signed, Uncertain, Sent, Included} then gone && a.inclusion.Some?
    else if a.doubt then false
    else if a.status in {Cancelled, Dead, Expired, Replaced} then ran
    else
      && a.status in {Minted, LostRace, Failed, Anomaly} && a.inclusion.Some?
      && (|| gone
          || (ran && l.height.Some? && l.height.value != a.inclusion.value.height)
          || (ran && l.nativeSuccess == Some(true) && a.status in {LostRace, Failed})
          || (ran && l.nativeSuccess == Some(false) && a.status in {Minted, Anomaly})
          || (ran && l.accepted == Some(true) && a.status != Minted)
          || (ran && l.accepted == Some(false) && a.status == Minted))
  }

  ghost predicate RefutedAt(rec: Record, lines: seq<Line>, i: nat)
    requires i < |rec.attempts|
  {
    var a := rec.attempts[i];
    a.hash.Some? && HasLine(lines, a.hash.value) && Refutes(a, LineOf(lines, a.hash.value))
  }

  lemma RefutedIsDisputed(rec: Record, lines: seq<Line>, i: nat)
    requires i < |rec.attempts|
    ensures Disputed(rec, lines, i) <==> RefutedAt(rec, lines, i)
  {
  }

  /** After resolution a payment is in doubt exactly if it was, or its line refutes it, or the line of an earlier one
      does while it was signed and neither held back nor cancelled. */
  lemma DoubtsInFields(rec: Record, lines: seq<Line>, j: nat)
    requires rec.ended && Numbered(rec) && j < |rec.attempts|
    ensures Resolve(rec, lines).attempts[j].doubt
       <==> || rec.attempts[j].doubt || RefutedAt(rec, lines, j)
            || (rec.attempts[j].hash.Some? && rec.attempts[j].status !in {Reserved, Signed, Cancelled}
                && exists i :: 0 <= i < j && RefutedAt(rec, lines, i))
  {
    DoubtsAfterResolution(rec, lines, j);
    forall i | 0 <= i < |rec.attempts| ensures Disputed(rec, lines, i) <==> RefutedAt(rec, lines, i) {
      RefutedIsDisputed(rec, lines, i);
    }
    if RefutedAt(rec, lines, j) {
      assert Disputed(rec, lines, j) && Reaches(rec, j, j);
    }
    if i :| 0 <= i < j && RefutedAt(rec, lines, i) && MayHaveRun(rec.attempts[j]) {
      assert Disputed(rec, lines, i) && Reaches(rec, i, j);
    }
  }

  /** What becomes of an attempt that has the final line `l`. */
  ghost predicate TakesFate(a: Attempt, b: Attempt, l: Line) {
    if a.status in {Reserved, Signed, Uncertain, Sent, Included} && IsFinal(l.status) then
      match l.status
      case HistoryFinalized => b == a.(status := Settled, doubt := b.doubt)
      case HistoryExpired => b == a.(status := Expired, inclusion := None, finalized := false, doubt := b.doubt)
      case _ => b == a.(status := Cancelled, inclusion := None, finalized := false, doubt := b.doubt)
    else b == a.(doubt := b.doubt)
  }

  ghost predicate TakesOwnFate(a: Attempt, b: Attempt, lines: seq<Line>) {
    if a.hash.Some? && HasLine(lines, a.hash.value) then TakesFate(a, b, LineOf(lines, a.hash.value))
    else b == a.(doubt := b.doubt)
  }

  lemma StepTakesFate(r: Record, lines: seq<Line>, k: nat)
    requires k < |r.attempts|
    ensures TakesOwnFate(r.attempts[k], ResolveAt(r, lines, k).attempts[k], lines)
  {
  }

  lemma {:induction false} FatesUpto(rec: Record, lines: seq<Line>, n: nat, j: nat)
    requires Numbered(rec) && j < n <= |rec.attempts|
    ensures TakesOwnFate(rec.attempts[j], ResolveUpto(rec, lines, n).attempts[j], lines)
    decreases n
  {
    var r := ResolveUpto(rec, lines, n - 1);
    DoubtsUpto(rec, lines, n - 1);
    if j < n - 1 {
      FatesUpto(rec, lines, n - 1, j);
      DoubtsOfOneStep(r, lines, n - 1, j);
    } else {
      StepTakesFate(r, lines, j);
    }
  }

  /** Apart from doubt, a payment without a final line keeps everything, one with a verdict too; an unresolved one is
      settled where it is if it ran, and otherwise loses its block. */
  lemma FatesInFields(rec: Record, lines: seq<Line>, j: nat)
    requires rec.ended && Numbered(rec) && j < |rec.attempts|
    ensures TakesOwnFate(rec.attempts[j], Resolve(rec, lines).attempts[j], lines)
  {
    FatesUpto(rec, lines, |rec.attempts|, j);
  }

  /** History's final word contradicts the verdict recorded for attempt `k`. */
  ghost predicate Contradicted(rec: Record, lines: seq<Line>, k: nat)
    requires k < |rec.attempts|
  {
    var a := rec.attempts[k];
    !IsUnresolved(a) && a.hash.Some? && HasLine(lines, a.hash.value) && Contradicts(a, LineOf(lines, a.hash.value))
  }

  /** When final history contradicts a verdict, a later payment that may have run ends in doubt exactly if the
      verdict was out of doubt before, or the payment was in doubt, or another dispute reaches it. */
  lemma ContradictionSpreads(rec: Record, lines: seq<Line>, k: nat, j: nat)
    requires rec.ended && Numbered(rec) && k < j < |rec.attempts|
    requires Contradicted(rec, lines, k) && MayHaveRun(rec.attempts[j])
    ensures Resolve(rec, lines).attempts[k].doubt
    ensures Resolve(rec, lines).attempts[j].doubt
       <==> || !rec.attempts[k].doubt || rec.attempts[j].doubt
            || exists i :: 0 <= i < |rec.attempts| && i != k && Disputed(rec, lines, i) && Reaches(rec, i, j)
  {
    DoubtsAfterResolution(rec, lines, k);
    DoubtsAfterResolution(rec, lines, j);
    assert Disputed(rec, lines, k) <==> !rec.attempts[k].doubt;
    assert Reaches(rec, k, k) && Reaches(rec, k, j);
  }

  /** A running session loses an inclusion from the tip's chain and ends. */
  function LostAndEnded(rec: Record, now: int): Record {
    DoubtOpen(rec).(ended := true, reason := Some(Reorg), endedAt := Some(now))
  }

  lemma EndingIsSound(rec: Record, lines: seq<Line>, now: int)
    requires Sound(rec, lines)
    ensures
      var ended := rec.(ended := true, reason := Some(Reorg), endedAt := Some(now));
      Sound(ended, lines) && SameChain(rec, ended)
  {
    var ended := rec.(ended := true, reason := Some(Reorg), endedAt := Some(now));
    ChainStands(rec, ended);
    assert SomeDoubt(rec) <==> SomeDoubt(ended);
    SameHashesKeepJournal(rec, ended, lines);
  }

  lemma LostAndEndedIsSound(rec: Record, lines: seq<Line>, now: int)
    requires Sound(rec, lines)
    ensures Sound(LostAndEnded(rec, now), lines) && SameChain(rec, LostAndEnded(rec, now))
  {
    var lost := DoubtOpen(rec);
    DoubtOpenStands(rec);
    SameHashesKeepJournal(rec, lost, lines);
    EndingIsSound(lost, lines, now);
    SameChainTwice(rec, lost, LostAndEnded(rec, now));
  }

  lemma {:induction false} NoncesAscend(rec: Record, i: nat, j: nat)
    requires Chained(rec) && i <= j < |rec.attempts|
    ensures rec.attempts[j].nonce == rec.attempts[i].nonce + (j - i)
    decreases j
  {
    if i < j {
      NoncesAscend(rec, i, j - 1);
      assert LedgerSoundness.Followed(rec, j - 1);
    }
  }

  /** One history line names one nonce, so no two payments share a hash. */
  lemma OwnHashes(rec: Record, lines: seq<Line>, i: nat, k: nat)
    requires Chained(rec) && Journaled(rec, lines) && i < |rec.attempts| && k < |rec.attempts| && i != k
    requires rec.attempts[i].hash.Some?
    ensures rec.attempts[i].hash != rec.attempts[k].hash
  {
    NoncesAscend(rec, if i < k then i else k, if i < k then k else i);
    assert OneMatchingLine(lines, rec.attempts[i], rec) && OneMatchingLine(lines, rec.attempts[k], rec);
  }

  /** No payment of the record is final in history. */
  ghost predicate NothingFinal(rec: Record, lines: seq<Line>) {
    forall i :: 0 <= i < |rec.attempts| && rec.attempts[i].hash.Some? ==>
      var h := rec.attempts[i].hash.value;
      HasLine(lines, h) && !IsFinal(LineOf(lines, h).status)
  }

  lemma OthersUndisputed(rec: Record, lines: seq<Line>, k: nat, i: nat)
    requires Chained(rec) && Journaled(rec, lines) && NothingFinal(rec, lines)
    requires k < |rec.attempts| && rec.attempts[k].hash.Some? && i < |rec.attempts| && i != k
    ensures !Disputed(rec, SetStatus(lines, rec.attempts[k].hash.value, HistoryExpired), i)
  {
    var expired := SetStatus(lines, rec.attempts[k].hash.value, HistoryExpired);
    if rec.attempts[i].hash.Some? {
      var h := rec.attempts[i].hash.value;
      OwnHashes(rec, lines, i, k);
      StatusKeepsKeys(lines, rec.attempts[k].hash.value, HistoryExpired);
      KeysFind(lines, expired, h);
      assert LineOf(expired, h) == LineOf(lines, h);
    }
  }

  /** A lot already in doubt that history expires: contradicted, but no longer disputed. */
  lemma ExpiredLot(rec: Record, lines: seq<Line>, k: nat)
    requires k < |rec.attempts| && rec.attempts[k].hash.Some? && HasLine(lines, rec.attempts[k].hash.value)
    requires AdmitsSuccessor(rec.attempts[k].status) && rec.attempts[k].inclusion.Some? && rec.attempts[k].doubt
    ensures
      var expired := SetStatus(lines, rec.attempts[k].hash.value, HistoryExpired);
      Contradicted(rec, expired, k) && !Disputed(rec, expired, k)
  {
    var h := rec.attempts[k].hash.value;
    StatusKeepsKeys(lines, h, HistoryExpired);
    KeysFind(lines, SetStatus(lines, h, HistoryExpired), h);
  }

  lemma ExpiredIsSound(rec: Record, lines: seq<Line>, h: Hash)
    requires Sound(rec, lines)
    ensures Sound(rec, SetStatus(lines, h, HistoryExpired))
  {
    StatusKeepsKeys(lines, h, HistoryExpired);
    KeysKeepJournal(rec, lines, SetStatus(lines, h, HistoryExpired));
  }

  /** The property fails of every ledger that lost an open lot from the chain while the payment sent after it was on
      its way: when history then expires that lot, its verdict is contradicted, and the later payment, which was born
      on the lost chain, is never put in doubt. Such a ledger passes the stored-record check. */
  lemma DoubtedVerdictDoesNotSpread(rec: Record, lines: seq<Line>, k: nat, j: nat, now: int)
    requires Sound(rec, lines) && NothingFinal(rec, lines) && k < j < |rec.attempts| && IsOpen(rec.attempts[k])
    requires MayHaveRun(rec.attempts[j]) && rec.attempts[j].inclusion.None? && !rec.attempts[j].doubt
    ensures
      var ended := LostAndEnded(rec, now);
      var expired := SetStatus(lines, rec.attempts[k].hash.value, HistoryExpired);
      && Sound(ended, expired) && RecordOk(ended, expired, false)
      && Contradicted(ended, expired, k) && MayHaveRun(ended.attempts[j])
      && !Resolve(ended, expired).attempts[j].doubt
  {
    var ended := LostAndEnded(rec, now);
    var h := rec.attempts[k].hash.value;
    assert LedgerSoundness.Followed(rec, k);
    LostAndEndedIsSound(rec, lines, now);
    LostIsNotFinal(rec, lines, now);
    ExpiredIsSound(ended, lines, h);
    SoundRecordPasses(ended, SetStatus(lines, h, HistoryExpired));
    ExpiredLot(ended, lines, k);
    forall i | 0 <= i < |ended.attempts| ensures !Disputed(ended, SetStatus(lines, h, HistoryExpired), i) {
      if i != k {
        OthersUndisputed(ended, lines, k, i);
      }
    }
    DoubtsAfterResolution(ended, SetStatus(lines, h, HistoryExpired), j);
  }

  lemma LostIsNotFinal(rec: Record, lines: seq<Line>, now: int)
    requires NothingFinal(rec, lines)
    ensures NothingFinal(LostAndEnded(rec, now), lines)
  {
  }

  function FirstLot(): Attempt {
    Attempt(1, Minted, 1, 1, Position(1, 1, 0), 0, 0, Block(1, 1), 0, 0, 0, 1, Some(1), Some(Position(2, 2, 0)),
            false, false)
  }

  function SecondLot(): Attempt {
    Attempt(2, Sent, 2, 1, Position(2, 2, 0), 1, 1, Block(2, 2), 1, 0, 0, 1, Some(2), None, false, false)
  }

  function TwoLots(): Record {
    Record(0, 0, 0, Terms(0, 1, 2, 2, 1, 2), 0, 1, 0, 100_000, false, None, None, 2, false, [FirstLot(), SecondLot()])
  }

  function TwoLines(): seq<Line> {
    [Line(2, 0, 0, 1, Submitted, Some(0), None, None, None),
     Line(1, 0, 0, 0, HistoryIncluded, Some(0), Some(2), Some(true), Some(true))]
  }

  lemma FirstLotBound()
    ensures ProtocolBound([FirstLot()], 0) == 1
  {
    assert [FirstLot()][..0] == [] && CouldSucceed([FirstLot()], 0) == [1];
    assert [1][..0] == [] && SortDescending([1]) == [1];
    assert CountStatus([FirstLot()], Minted) == 1 && SumFirst([1], 1) == 1;
  }

  lemma FirstLotIsAdmitted()
    ensures Admitted(TwoLots(), 0)
  {
    assert TwoLots().attempts[..0] == [];
  }

  lemma SecondLotIsAdmitted()
    ensures Admitted(TwoLots(), 1)
  {
    var first := [FirstLot()];
    assert TwoLots().attempts[..1] == first && first[..0] == [];
    FirstLotBound();
    assert CountStatus(first, Minted) == 1 && CountStatus(first, LostRace) == 0;
  }

  lemma TwoAreChained(rec: Record)
    requires Headed(rec)
    requires Admitted(rec, 0) && Admitted(rec, 1) && LedgerSoundness.Followed(rec, 0)
    ensures Chained(rec)
  {
    forall k | 0 <= k < 2 ensures Admitted(rec, k) {
      assert k == 0 || k == 1;
    }
    forall i | 0 <= i < 1 ensures LedgerSoundness.Followed(rec, i) {
      assert i == 0;
    }
  }

  ghost predicate Headed(rec: Record) {
    && TermsOk(rec.terms) && rec.used == |rec.attempts| == 2 <= rec.terms.maxAttempts
    && forall i :: 0 <= i < 2 ==>
         rec.attempts[i].n == i + 1 && rec.attempts[i].reserveProtocol == Charge(rec.attempts[i], rec.ticket)
  }

  lemma TwoLotsAreHeaded()
    ensures Headed(TwoLots()) && LedgerSoundness.Followed(TwoLots(), 0)
  {
  }

  lemma TwoLotsAreChained()
    ensures Chained(TwoLots())
  {
    FirstLotIsAdmitted();
    SecondLotIsAdmitted();
    TwoLotsAreHeaded();
    TwoAreChained(TwoLots());
  }

  lemma TwoLotsAreShaped()
    ensures Shaped(TwoLots())
  {
  }

  lemma TwoLotsAreJournaled()
    ensures Journaled(TwoLots(), TwoLines()) && NothingFinal(TwoLots(), TwoLines())
  {
    var lines := TwoLines();
    assert lines[1..] == [lines[1]] && lines[1..][1..] == [];
    assert FindLine(lines, 2) == 0 && FindLine(lines, 1) == 1;
    assert CountLines(lines, 2) == 1 && CountLines(lines, 1) == 1;
  }

  /** Such a ledger: one lot in an open block, the next one sent. */
  lemma TwoLotsAreOpen()
    ensures Sound(TwoLots(), TwoLines()) && NothingFinal(TwoLots(), TwoLines())
    ensures IsOpen(TwoLots().attempts[0]) && MayHaveRun(TwoLots().attempts[1])
    ensures TwoLots().attempts[1].inclusion.None? && !TwoLots().attempts[1].doubt
  {
    TwoLotsAreChained();
    TwoLotsAreShaped();
    TwoLotsAreJournaled();
  }

  // ---- Resolution settles ---------------------------------------------------------------------------

  /** Nothing is left to do for an attempt: no final line, or a fate history agrees with, or a doubt. */
  ghost predicate Quiet(a: Attempt, lines: seq<Line>) {
    a.hash.Some? && HasLine(lines, a.hash.value) ==>
      var l := LineOf(lines, a.hash.value);
      if IsUnresolved(a) then !IsFinal(l.status) else a.doubt || !Contradicts(a, l)
  }

  lemma StepQuiets(rec: Record, lines: seq<Line>, k: nat)
    requires k < |rec.attempts|
    ensures Quiet(ResolveAt(rec, lines, k).attempts[k], lines)
    ensures Quiet(rec.attempts[k], lines) ==> ResolveAt(rec, lines, k) == rec
  {
    var a := rec.attempts[k];
    if a.hash.Some? && HasLine(lines, a.hash.value) && IsUnresolved(a) {
      var l := LineOf(lines, a.hash.value);
      if IsFinal(l.status) {
        assert !Contradicts(ResolvedAttempt(a, l), l);
      }
    }
  }

  lemma {:induction false} QuietUpto(rec: Record, lines: seq<Line>, n: nat)
    requires Numbered(rec) && n <= |rec.attempts|
    ensures forall i :: 0 <= i < n ==> Quiet(ResolveUpto(rec, lines, n).attempts[i], lines)
  {
    if n > 0 {
      var k := n - 1;
      QuietUpto(rec, lines, k);
      DoubtsUpto(rec, lines, k);
      var r := ResolveUpto(rec, lines, k);
      StepQuiets(r, lines, k);
      forall i | 0 <= i < k ensures ResolveAt(r, lines, k).attempts[i] == r.attempts[i] {
        DoubtsOfOneStep(r, lines, k, i);
      }
    }
  }

  lemma {:induction false} QuietStays(rec: Record, lines: seq<Line>, n: nat)
    requires n <= |rec.attempts|
    requires forall i :: 0 <= i < |rec.attempts| ==> Quiet(rec.attempts[i], lines)
    ensures ResolveUpto(rec, lines, n) == rec
  {
    if n > 0 {
      QuietStays(rec, lines, n - 1);
      StepQuiets(rec, lines, n - 1);
    }
  }

  /** For a fixed history, resolving twice is resolving once. */
  lemma ResolutionIsIdempotent(rec: Record, lines: seq<Line>)
    requires Numbered(rec)
    ensures Resolve(Resolve(rec, lines), lines) == Resolve(rec, lines)
  {
    if rec.ended {
      ResolutionOnlyResolves(rec, lines, |rec.attempts|);
      QuietUpto(rec, lines, |rec.attempts|);
      QuietStays(Resolve(rec, lines), lines, |rec.attempts|);
    }
  }

  // ---- Resolution, restart and stale ends keep every record sound -----------------------------------

  lemma SameChainTwice(r: Record, s: Record, t: Record)
    requires SameChain(r, s) && SameChain(s, t)
    ensures SameChain(r, t)
  {
  }

  ghost predicate Stands(r: Record, s: Record) {
    SameChain(r, s) && Chained(s) && Shaped(s) && s.ended == r.ended
  }

  lemma UnchangedStands(rec: Record)
    requires Chained(rec) && Shaped(rec)
    ensures Stands(rec, rec)
  {
  }

  /** An unresolved payment is the last one; it may take history's fate. */
  lemma FateStands(rec: Record, k: nat, l: Line)
    requires rec.ended && Chained(rec) && Shaped(rec) && k < |rec.attempts|
    requires IsUnresolved(rec.attempts[k]) && rec.attempts[k].hash.Some? && IsFinal(l.status)
    ensures
      var s := rec.(attempts := rec.attempts[k := ResolvedAttempt(rec.attempts[k], l)]);
      SameChain(rec, s) && Chained(s) && Shaped(s)
  {
    assert k < |rec.attempts| - 1 ==> LedgerSoundness.Followed(rec, k);
    assert AttemptOk(rec.attempts[k], k, rec.used);
    LastMoves(rec, ResolvedAttempt(rec.attempts[k], l));
  }

  lemma DoubtedFateStands(rec: Record, k: nat, l: Line)
    requires rec.ended && Chained(rec) && Shaped(rec) && k < |rec.attempts|
    requires IsUnresolved(rec.attempts[k]) && rec.attempts[k].inclusion.Some? && IsFinal(l.status)
    requires rec.attempts[k].hash.Some? && rec.attempts[k].status !in {Reserved, Signed}
    ensures
      var r := DoubtFrom(rec, k);
      var s := r.(attempts := r.attempts[k := ResolvedAttempt(r.attempts[k], l)]);
      SameChain(rec, s) && Chained(s) && Shaped(s)
  {
    var r := DoubtFrom(rec, k);
    DoubtFromStands(rec, k);
    FateStands(r, k, l);
    SameChainTwice(rec, r, r.(attempts := r.attempts[k := ResolvedAttempt(r.attempts[k], l)]));
  }

  lemma ResolveStepStands(rec: Record, lines: seq<Line>, k: nat)
    requires rec.ended && Chained(rec) && Shaped(rec) && k < |rec.attempts|
    ensures Chained(ResolveAt(rec, lines, k)) && Shaped(ResolveAt(rec, lines, k))
    ensures SameChain(rec, ResolveAt(rec, lines, k))
  {
    var a := rec.attempts[k];
    assert AttemptOk(a, k, rec.used);
    if a.hash.None? || !HasLine(lines, a.hash.value) {
      UnchangedStands(rec);
    } else {
      var l := LineOf(lines, a.hash.value);
      if IsUnresolved(a) {
        if !IsFinal(l.status) {
          UnchangedStands(rec);
        } else if NeverRan(l.status) && a.inclusion.Some? {
          DoubtedFateStands(rec, k, l);
        } else {
          FateStands(rec, k, l);
        }
      } else if !a.doubt && Contradicts(a, l) {
        DoubtFromStands(rec, k);
      } else {
        UnchangedStands(rec);
      }
    }
  }

  lemma StepStands(rec: Record, r: Record, lines: seq<Line>, k: nat)
    requires rec.ended && Stands(rec, r) && k < |r.attempts|
    ensures Stands(rec, ResolveAt(r, lines, k))
  {
    ResolveStepStands(r, lines, k);
    SameChainTwice(rec, r, ResolveAt(r, lines, k));
    StepOnlyResolves(r, lines, k);
  }

  lemma NextStands(rec: Record, lines: seq<Line>, n: nat)
    requires rec.ended && n < |rec.attempts| && Stands(rec, ResolveUpto(rec, lines, n))
    ensures Stands(rec, ResolveUpto(rec, lines, n + 1))
  {
    StepStands(rec, ResolveUpto(rec, lines, n), lines, n);
  }

  lemma {:induction false} ResolutionStands(rec: Record, lines: seq<Line>, n: nat)
    requires rec.ended && Chained(rec) && Shaped(rec) && n <= |rec.attempts|
    ensures Stands(rec, ResolveUpto(rec, lines, n))
  {
    if n == 0 {
      UnchangedStands(rec);
    } else {
      ResolutionStands(rec, lines, n - 1);
      NextStands(rec, lines, n - 1);
    }
  }

  lemma ResolvedRecordIsSound(rec: Record, lines: seq<Line>, final: seq<Line>)
    requires Sound(rec, lines)
    ensures Sound(Resolve(rec, final), lines)
    ensures SameChain(rec, Resolve(rec, final))
  {
    if rec.ended {
      ResolutionStands(rec, final, |rec.attempts|);
      ResolutionOnlyResolves(rec, final, |rec.attempts|);
      SameHashesKeepJournal(rec, Resolve(rec, final), lines);
    }
  }

  /** A record that ends with its hashes unchanged stays sound, in any history with the same payments. */
  lemma EndedRecordIsSound(rec: Record, reason: EndReason, now: int, lines: seq<Line>, after: seq<Line>)
    requires Sound(rec, lines) && SameKeys(lines, after)
    ensures Sound(EndUnowned(rec, reason, now), after)
    ensures SameChain(rec, EndUnowned(rec, reason, now))
  {
    var s := EndUnowned(rec, reason, now);
    EndStands(rec, reason, now);
    SameHashesKeepJournal(rec, s, lines);
    KeysKeepJournal(s, lines, after);
  }

  lemma RestartedRecordIsSound(rec: Record, lines: seq<Line>, now: int)
    requires Sound(rec, lines)
    ensures Sound(EndOnRestart(rec, now), RestartLines(lines))
    ensures SameChain(rec, EndOnRestart(rec, now))
  {
    if rec.ended {
      KeysKeepJournal(rec, lines, RestartLines(lines));
    } else {
      EndedRecordIsSound(rec, Restarted, now, lines, RestartLines(lines));
    }
  }

  lemma {:induction false} StaleLinesKeepKeys(attempts: seq<Attempt>, lines: seq<Line>)
    ensures SameKeys(lines, CancelStaleLines(attempts, lines))
  {
    if attempts != [] {
      StaleLinesKeepKeys(attempts[..|attempts| - 1], lines);
    }
  }

  /** Exactly the entries that are the first of a hash in `hashes`, and still only signed, became cancelled. */
  ghost predicate CancelsSigned(lines: seq<Line>, after: seq<Line>, hashes: set<Hash>) {
    && |after| == |lines|
    && forall i :: 0 <= i < |lines| ==>
         after[i] == if IsSignedOf(lines, i, hashes) then lines[i].(status := CancelledBeforeBroadcast) else lines[i]
  }

  ghost predicate IsSignedOf(lines: seq<Line>, i: nat, hashes: set<Hash>)
    requires i < |lines|
  {
    && lines[i].status == SignedNotSubmitted && lines[i].hash in hashes
    && forall j :: 0 <= j < i ==> lines[j].hash != lines[i].hash
  }

  lemma CancelsInTurn(lines: seq<Line>, between: seq<Line>, after: seq<Line>, some: set<Hash>, more: set<Hash>)
    requires CancelsSigned(lines, between, some) && CancelsSigned(between, after, more)
    ensures CancelsSigned(lines, after, some + more)
  {
    forall i | 0 <= i < |lines|
      ensures after[i] == if IsSignedOf(lines, i, some + more) then lines[i].(status := CancelledBeforeBroadcast)
                          else lines[i]
    {
      assert forall j :: 0 <= j < i ==> between[j].hash == lines[j].hash;
    }
  }

  lemma CancelsNone(lines: seq<Line>)
    ensures CancelsSigned(lines, lines, {})
  {
  }

  /** The hash of an attempt that is signed and no more. */
  ghost function SignedHash(a: Attempt): set<Hash> {
    if a.status == Signed && a.hash.Some? then {a.hash.value} else {}
  }

  ghost function SignedHashes(attempts: seq<Attempt>): set<Hash> {
    if attempts == [] then {} else SignedHashes(attempts[..|attempts| - 1]) + SignedHash(attempts[|attempts| - 1])
  }

  lemma {:induction false} SignedHashesAre(attempts: seq<Attempt>, hash: Hash)
    ensures hash in SignedHashes(attempts)
       <==> exists i :: 0 <= i < |attempts| && attempts[i].status == Signed && attempts[i].hash == Some(hash)
  {
    if attempts != [] {
      SignedHashesAre(attempts[..|attempts| - 1], hash);
    }
  }

  lemma LastCancelsItsLine(attempts: seq<Attempt>, lines: seq<Line>)
    requires attempts != []
    ensures
      var k := |attempts| - 1;
      CancelsSigned(CancelStaleLines(attempts[..k], lines), CancelStaleLines(attempts, lines), SignedHash(attempts[k]))
  {
  }

  lemma {:induction false} AttemptsCancelTheirLines(attempts: seq<Attempt>, lines: seq<Line>)
    ensures CancelsSigned(lines, CancelStaleLines(attempts, lines), SignedHashes(attempts))
  {
    if attempts == [] {
      CancelsNone(lines);
    } else {
      var k := |attempts| - 1;
      AttemptsCancelTheirLines(attempts[..k], lines);
      LastCancelsItsLine(attempts, lines);
      CancelsInTurn(lines, CancelStaleLines(attempts[..k], lines), CancelStaleLines(attempts, lines),
                    SignedHashes(attempts[..k]), SignedHash(attempts[k]));
    }
  }

  /** What the running records of one account have signed and not marked as released. */
  ghost function StaleHashes(sessions: seq<Record>, owner: Id, genesis: Id): set<Hash> {
    if sessions == [] then {}
    else
      var rec := sessions[|sessions| - 1];
      StaleHashes(sessions[..|sessions| - 1], owner, genesis)
      + if !rec.ended && rec.owner == owner && rec.genesis == genesis then SignedHashes(rec.attempts) else {}
  }

  lemma {:induction false} StaleHashesAre(sessions: seq<Record>, owner: Id, genesis: Id, hash: Hash)
    ensures hash in StaleHashes(sessions, owner, genesis)
       <==> exists r <- sessions :: !r.ended && r.owner == owner && r.genesis == genesis
                                    && hash in SignedHashes(r.attempts)
  {
    if sessions != [] {
      StaleHashesAre(sessions[..|sessions| - 1], owner, genesis, hash);
    }
  }

  /** The stale ends of an account cancel exactly the entries, still only signed, of what its running records signed. */
  lemma {:induction false} StaleEntriesAreCancelled(sessions: seq<Record>, lines: seq<Line>, owner: Id, genesis: Id)
    ensures CancelsSigned(lines, StaleLines(sessions, lines, owner, genesis), StaleHashes(sessions, owner, genesis))
  {
    CancelsNone(lines);
    if sessions != [] {
      var k := |sessions| - 1;
      var before := StaleLines(sessions[..k], lines, owner, genesis);
      StaleEntriesAreCancelled(sessions[..k], lines, owner, genesis);
      AttemptsCancelTheirLines(sessions[k].attempts, before);
      if IsStale(sessions[k], owner, genesis) {
        CancelsInTurn(lines, before, CancelStaleLines(sessions[k].attempts, before),
                      StaleHashes(sessions[..k], owner, genesis), SignedHashes(sessions[k].attempts));
      }
    }
  }

  /** A running record without a controller, ended at the next approval together with its lines. */
  lemma StaleRecordIsSound(rec: Record, lines: seq<Line>, now: int)
    requires Sound(rec, lines)
    ensures Sound(EndUnowned(rec, Unavailable, now), CancelStaleLines(rec.attempts, lines))
  {
    StaleLinesKeepKeys(rec.attempts, lines);
    EndedRecordIsSound(rec, Unavailable, now, lines, CancelStaleLines(rec.attempts, lines));
  }

  // ---- Pruning --------------------------------------------------------------------------------------

  function Unsettled(sessions: seq<Record>, lines: seq<Line>): seq<Record> {
    if sessions == [] then []
    else (if SettledRecord(sessions[0], lines) then [] else [sessions[0]]) + Unsettled(sessions[1..], lines)
  }

  lemma {:induction false} DroppingASettledRecord(sessions: seq<Record>, lines: seq<Line>, i: nat)
    requires i < |sessions| && SettledRecord(sessions[i], lines)
    ensures Unsettled(sessions[..i] + sessions[i + 1..], lines) == Unsettled(sessions, lines)
  {
    if i > 0 {
      DroppingASettledRecord(sessions[1..], lines, i - 1);
      assert (sessions[..i] + sessions[i + 1..])[1..] == sessions[1..][..i - 1] + sessions[1..][i..];
    } else {
      assert sessions[..0] + sessions[1..] == sessions[1..];
    }
  }

  /** Pruning drops only settled records, and stops with a free slot or nothing left to drop. */
  lemma {:induction false} PruningKeepsUnsettled(sessions: seq<Record>, lines: seq<Line>)
    ensures Unsettled(Pruned(sessions, lines), lines) == Unsettled(sessions, lines)
    ensures |Pruned(sessions, lines)| < MAX_SESSION_RECORDS
         || forall r <- Pruned(sessions, lines) :: !SettledRecord(r, lines)
    decreases |sessions|
  {
    var i := FirstSettled(sessions, lines);
    if |sessions| >= MAX_SESSION_RECORDS && i < |sessions| {
      DroppingASettledRecord(sessions, lines, i);
      PruningKeepsUnsettled(sessions[..i] + sessions[i + 1..], lines);
    }
  }

  ghost function CountSettled(sessions: seq<Record>, lines: seq<Line>): nat {
    if sessions == [] then 0
    else (if SettledRecord(sessions[0], lines) then 1 else 0) + CountSettled(sessions[1..], lines)
  }

  /** The records without the first `d` settled ones. */
  ghost function WithoutFirst(sessions: seq<Record>, lines: seq<Line>, d: nat): seq<Record> {
    if sessions == [] || d == 0 then sessions
    else if SettledRecord(sessions[0], lines) then WithoutFirst(sessions[1..], lines, d - 1)
    else [sessions[0]] + WithoutFirst(sessions[1..], lines, d)
  }

  lemma {:induction false} DroppingTheFirst(sessions: seq<Record>, lines: seq<Line>, i: nat, d: nat)
    requires i < |sessions| && SettledRecord(sessions[i], lines)
    requires forall j :: 0 <= j < i ==> !SettledRecord(sessions[j], lines)
    ensures WithoutFirst(sessions[..i] + sessions[i + 1..], lines, d) == WithoutFirst(sessions, lines, d + 1)
    ensures CountSettled(sessions, lines) == CountSettled(sessions[..i] + sessions[i + 1..], lines) + 1
  {
    if i == 0 {
      assert sessions[..0] + sessions[1..] == sessions[1..];
    } else {
      var rest := sessions[1..];
      DroppingTheFirst(rest, lines, i - 1, d);
      assert (sessions[..i] + sessions[i + 1..])[1..] == rest[..i - 1] + rest[i..];
    }
  }

  lemma {:induction false} NoneSettled(sessions: seq<Record>, lines: seq<Line>)
    requires FirstSettled(sessions, lines) == |sessions|
    ensures CountSettled(sessions, lines) == 0
  {
    if sessions != [] {
      NoneSettled(sessions[1..], lines);
    }
  }

  /** How many of `settled` settled records go, of `all` records, to leave room for one more of eight. */
  ghost function Excess(all: nat, settled: nat): nat {
    if all < 8 then 0 else if settled < all - 7 then settled else all - 7
  }

  lemma PruningTakesTheFirst(sessions: seq<Record>, lines: seq<Line>, i: nat)
    requires |sessions| >= 8 && i == FirstSettled(sessions, lines) < |sessions|
    ensures Pruned(sessions, lines) == Pruned(sessions[..i] + sessions[i + 1..], lines)
    ensures SettledRecord(sessions[i], lines)
    ensures forall j :: 0 <= j < i ==> !SettledRecord(sessions[j], lines)
  {}

  lemma PruningStops(sessions: seq<Record>, lines: seq<Line>)
    requires |sessions| < 8 || FirstSettled(sessions, lines) == |sessions|
    ensures Pruned(sessions, lines) == sessions == WithoutFirst(sessions, lines, 0)
  {}

  lemma OneMoreIsDropped(sessions: seq<Record>, lines: seq<Line>, i: nat, pruned: seq<Record>, d: nat)
    requires |sessions| >= 8 && i < |sessions| && SettledRecord(sessions[i], lines)
    requires forall j :: 0 <= j < i ==> !SettledRecord(sessions[j], lines)
    requires d == Excess(|sessions| - 1, CountSettled(sessions[..i] + sessions[i + 1..], lines))
    requires pruned == WithoutFirst(sessions[..i] + sessions[i + 1..], lines, d)
    ensures pruned == WithoutFirst(sessions, lines, d + 1)
    ensures d + 1 == Excess(|sessions|, CountSettled(sessions, lines))
  {
    DroppingTheFirst(sessions, lines, i, d);
  }

  /** Pruning removes the oldest settled records, and just as many as it takes to leave room for one more of eight, or
      all of them. */
  lemma {:induction false} PruningIsExact(sessions: seq<Record>, lines: seq<Line>)
    ensures Pruned(sessions, lines)
         == WithoutFirst(sessions, lines, Excess(|sessions|, CountSettled(sessions, lines)))
    decreases |sessions|
  {
    var i := FirstSettled(sessions, lines);
    if |sessions| < 8 {
      PruningStops(sessions, lines);
    } else if i == |sessions| {
      PruningStops(sessions, lines);
      NoneSettled(sessions, lines);
    } else {
      var rest := sessions[..i] + sessions[i + 1..];
      PruningIsExact(rest, lines);
      PruningTakesTheFirst(sessions, lines, i);
      OneMoreIsDropped(sessions, lines, i, Pruned(rest, lines), Excess(|rest|, CountSettled(rest, lines)));
    }
  }

  /** A record is settled once it ended and every hash of it has a line that history finalized, as run or not, or that
      was cancelled before it left. */
  lemma SettledMeans(rec: Record, lines: seq<Line>)
    ensures SettledRecord(rec, lines)
       <==> rec.ended && forall i :: 0 <= i < |rec.attempts| && rec.attempts[i].hash.Some? ==>
              exists j :: 0 <= j < |lines| && lines[j].hash == rec.attempts[i].hash.value
                          && lines[j].status in {HistoryFinalized, HistoryExpired, CancelledBeforeBroadcast}
  {
    if rec.ended && forall i :: 0 <= i < |rec.attempts| && rec.attempts[i].hash.Some? ==>
         exists j :: 0 <= j < |lines| && lines[j].hash == rec.attempts[i].hash.value
                     && lines[j].status in {HistoryFinalized, HistoryExpired, CancelledBeforeBroadcast}
    {
      forall a | a in rec.attempts && a.hash.Some?
        ensures exists l <- lines :: l.hash == a.hash.value && IsFinal(l.status)
      {
        var i :| 0 <= i < |rec.attempts| && rec.attempts[i] == a;
        var j :| 0 <= j < |lines| && lines[j].hash == a.hash.value
                 && lines[j].status in {HistoryFinalized, HistoryExpired, CancelledBeforeBroadcast};
        assert lines[j] in lines;
      }
    }
    if SettledRecord(rec, lines) {
      forall i | 0 <= i < |rec.attempts| && rec.attempts[i].hash.Some?
        ensures exists j :: 0 <= j < |lines| && lines[j].hash == rec.attempts[i].hash.value
                            && lines[j].status in {HistoryFinalized, HistoryExpired, CancelledBeforeBroadcast}
      {
        assert rec.attempts[i] in rec.attempts;
        var l :| l in lines && l.hash == rec.attempts[i].hash.value && IsFinal(l.status);
        var j :| 0 <= j < |lines| && lines[j] == l;
      }
    }
  }
}
