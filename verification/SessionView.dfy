/** What the wallet window infers from a snapshot once signing stopped: whether anything can still change. */
module SessionView {
  import opened MintTypes
  import opened SpendAccounting
  import opened SessionSnapshots
  import opened StoredLedger
  import opened LedgerSoundness

  /** The payments the window lists, oldest first. */
  function Payments(attempts: seq<Attempt>, final: set<Hash>): seq<AttemptView> {
    if attempts == [] then []
    else
      var k := |attempts| - 1;
      var v := ViewOf(attempts[k], final);
      Payments(attempts[..k], final) + if v.Some? then [v.value] else []
  }

  /** The lots still to be matched with final ones, and whether a lost race is open. */
  datatype Walk = Walk(left: nat, open: bool)

  function Step(w: Walk, p: AttemptView): Walk {
    if p.status == Verdict(LostRace) then w.(open := true)
    else if p.status == Verdict(Minted) && w.left > 0 then Walk(w.left - 1, false)
    else w
  }

  function Walked(payments: seq<AttemptView>, finalLots: nat): Walk {
    if payments == [] then Walk(finalLots, false)
    else Step(Walked(payments[..|payments| - 1], finalLots), payments[|payments| - 1])
  }

  method OpenLostRace(payments: seq<AttemptView>, finalized: nat) returns (open: bool)
    ensures open == Walked(payments, finalized).open
  {
    var finalLots := finalized;
    open := false;
    for i := 0 to |payments|
      invariant Walk(finalLots, open) == Walked(payments[..i], finalized)
    {
      assert payments[..i + 1][..i] == payments[..i];
      if payments[i].status == Verdict(LostRace) {
        open := true;
      } else if payments[i].status == Verdict(Minted) && finalLots > 0 {
        finalLots := finalLots - 1;
        open := false;
      }
    }
    assert payments[..|payments|] == payments;
  }

  // ---- What the answer means ------------------------------------------------------------------------

  ghost predicate VerifiedRace(a: Attempt) {
    a.status == LostRace && !a.doubt
  }

  /** Lot `j` is among the first `n` verified ones. */
  ghost predicate AmongFirst(attempts: seq<Attempt>, j: nat, n: nat)
    requires j < |attempts|
  {
    VerifiedLot(attempts[j]) && CountStatus(Verified(attempts[..j]), Minted) < n
  }

  /** Every verified lost race comes before one of the first `n` verified lots. */
  ghost predicate RacesBeforeLots(attempts: seq<Attempt>, n: nat) {
    forall i :: 0 <= i < |attempts| && VerifiedRace(attempts[i]) ==> LotAfter(attempts, i, n)
  }

  ghost predicate LotAfter(attempts: seq<Attempt>, i: nat, n: nat) {
    exists j :: i < j < |attempts| && AmongFirst(attempts, j, n)
  }

  lemma LotAfterPrefix(attempts: seq<Attempt>, i: nat, n: nat)
    requires attempts != []
    ensures
      var k := |attempts| - 1;
      LotAfter(attempts, i, n) <==> LotAfter(attempts[..k], i, n) || (i < k && AmongFirst(attempts, k, n))
  {
    var k := |attempts| - 1;
    assert forall j :: 0 <= j < k ==> attempts[..k][..j] == attempts[..j];
    if LotAfter(attempts[..k], i, n) {
      var j :| i < j < k && AmongFirst(attempts[..k], j, n);
      assert AmongFirst(attempts, j, n);
    }
    if j :| i < j < |attempts| && AmongFirst(attempts, j, n) && j < k {
      assert AmongFirst(attempts[..k], j, n);
    }
  }

  lemma PaymentsWithLast(attempts: seq<Attempt>, final: set<Hash>, n: nat)
    requires attempts != []
    ensures
      var k := |attempts| - 1;
      var v := ViewOf(attempts[k], final);
      var before := Walked(Payments(attempts[..k], final), n);
      Walked(Payments(attempts, final), n) == if v.Some? then Step(before, v.value) else before
  {
    var k := |attempts| - 1;
    var v := ViewOf(attempts[k], final);
    var p := Payments(attempts[..k], final);
    if v.Some? {
      assert (p + [v.value])[..|p|] == p;
    } else {
      assert p + [] == p;
    }
  }

  /** One payment's step, in terms of its attempt. */
  lemma StepOf(w: Walk, a: Attempt, i: nat, used: nat, final: set<Hash>)
    requires AttemptOk(a, i, used)
    ensures
      var v := ViewOf(a, final);
      (if v.Some? then Step(w, v.value) else w)
      == if VerifiedRace(a) then w.(open := true)
         else if VerifiedLot(a) && w.left > 0 then Walk(w.left - 1, false) else w
  {
  }

  lemma WalkWithLast(attempts: seq<Attempt>, final: set<Hash>, n: nat, used: nat)
    requires attempts != [] && AttemptOk(attempts[|attempts| - 1], |attempts| - 1, used)
    ensures
      var a := attempts[|attempts| - 1];
      var w := Walked(Payments(attempts[..|attempts| - 1], final), n);
      Walked(Payments(attempts, final), n)
      == if VerifiedRace(a) then w.(open := true)
         else if VerifiedLot(a) && w.left > 0 then Walk(w.left - 1, false) else w
  {
    var k := |attempts| - 1;
    PaymentsWithLast(attempts, final, n);
    StepOf(Walked(Payments(attempts[..k], final), n), attempts[k], k, used, final);
  }

  /** The walk counts the verified lots it passed, and leaves nothing open exactly when every lost race came
      before one of the lots it matched. */
  lemma {:induction false} WalkMeans(attempts: seq<Attempt>, final: set<Hash>, n: nat, used: nat)
    requires forall i :: 0 <= i < |attempts| ==> AttemptOk(attempts[i], i, used)
    ensures
      var w := Walked(Payments(attempts, final), n);
      var lots := CountStatus(Verified(attempts), Minted);
      && w.left == (if lots < n then n - lots else 0)
      && (w.open <==> !RacesBeforeLots(attempts, n))
  {
    if attempts != [] {
      var k := |attempts| - 1;
      WalkMeans(attempts[..k], final, n, used);
      WalkWithLast(attempts, final, n, used);
      LotsWithLast(attempts);
      RacesWithLast(attempts, n);
    }
  }

  lemma RacesWithLast(attempts: seq<Attempt>, n: nat)
    requires attempts != []
    ensures
      var k := |attempts| - 1;
      RacesBeforeLots(attempts, n)
      <==> !VerifiedRace(attempts[k]) && (AmongFirst(attempts, k, n) || RacesBeforeLots(attempts[..k], n))
  {
    var k := |attempts| - 1;
    forall i: nat ensures LotAfter(attempts, i, n)
        <==> LotAfter(attempts[..k], i, n) || (i < k && AmongFirst(attempts, k, n))
    {
      LotAfterPrefix(attempts, i, n);
    }
    assert !LotAfter(attempts[..k], k, n);
    if RacesBeforeLots(attempts, n) && !AmongFirst(attempts, k, n) {
      forall i | 0 <= i < k && VerifiedRace(attempts[..k][i]) ensures LotAfter(attempts[..k], i, n) {
        assert VerifiedRace(attempts[i]);
      }
    }
    if !VerifiedRace(attempts[k]) && (AmongFirst(attempts, k, n) || RacesBeforeLots(attempts[..k], n)) {
      forall i | 0 <= i < |attempts| && VerifiedRace(attempts[i]) ensures LotAfter(attempts, i, n) {
        assert i < k && attempts[..k][i] == attempts[i];
      }
    }
  }

  lemma FinalLotsWithLast(attempts: seq<Attempt>)
    requires attempts != []
    ensures CountFinalLots(Verified(attempts))
         == CountFinalLots(Verified(attempts[..|attempts| - 1]))
            + if VerifiedLot(attempts[|attempts| - 1]) && attempts[|attempts| - 1].finalized then 1 else 0
  {
    VerifiedWithLast(attempts);
  }

  lemma NextFinalLots(attempts: seq<Attempt>, m: nat)
    requires m < |attempts|
    ensures CountFinalLots(Verified(attempts[..m + 1]))
         == CountFinalLots(Verified(attempts[..m]))
            + if VerifiedLot(attempts[m]) && attempts[m].finalized then 1 else 0
  {
    assert attempts[..m + 1][..m] == attempts[..m];
    FinalLotsWithLast(attempts[..m + 1]);
  }

  lemma NoFinalLotAfter(rec: Record, j: nat, m: nat)
    requires FinalInOrder(rec) && j < m <= |rec.attempts|
    requires !rec.attempts[j].finalized && !rec.attempts[j].doubt
    ensures CountFinalLots(Verified(rec.attempts[..m])) == CountFinalLots(Verified(rec.attempts[..m - 1]))
  {
    assert !(VerifiedLot(rec.attempts[m - 1]) && rec.attempts[m - 1].finalized);
    NextFinalLots(rec.attempts, m - 1);
  }

  lemma FinalLotsAreLots(attempts: seq<Attempt>)
    ensures CountFinalLots(Verified(attempts)) <= CountStatus(Verified(attempts), Minted)
  {
    CountsAreDisjoint(attempts, {});
  }

  /** Final lots come first: a verified lot that is not final has no final one after it. */
  lemma {:induction false} FinalLotsBefore(rec: Record, j: nat, m: nat)
    requires FinalInOrder(rec) && j <= m <= |rec.attempts| && j < |rec.attempts|
    requires !rec.attempts[j].finalized && !rec.attempts[j].doubt
    ensures CountFinalLots(Verified(rec.attempts[..m])) <= CountStatus(Verified(rec.attempts[..j]), Minted)
    decreases m
  {
    if m > j {
      FinalLotsBefore(rec, j, m - 1);
      NoFinalLotAfter(rec, j, m);
    } else {
      FinalLotsAreLots(rec.attempts[..m]);
    }
  }

  lemma FirstLotsAreFinal(rec: Record, j: nat)
    requires FinalInOrder(rec) && j < |rec.attempts|
    requires AmongFirst(rec.attempts, j, CountFinalLots(Verified(rec.attempts)))
    ensures rec.attempts[j].finalized
  {
    assert rec.attempts[..|rec.attempts|] == rec.attempts;
    if !rec.attempts[j].finalized {
      FinalLotsBefore(rec, j, |rec.attempts|);
    }
  }

  /** When the window sees no open lost race, every verified lost race of the record is final. */
  lemma NoOpenRaceMeansFinal(rec: Record, final: set<Hash>, i: nat)
    requires FinalInOrder(rec) && AttemptsOk(rec)
    requires !Walked(Payments(rec.attempts, final), SnapshotOf(rec, final).finalLots).open
    requires i < |rec.attempts| && VerifiedRace(rec.attempts[i])
    ensures rec.attempts[i].finalized
  {
    var n := CountFinalLots(Verified(rec.attempts));
    WalkMeans(rec.attempts, final, n, rec.used);
    assert LotAfter(rec.attempts, i, n);
    var j :| i < j < |rec.attempts| && AmongFirst(rec.attempts, j, n);
    FirstLotsAreFinal(rec, j);
  }

  // ---- Whether anything can still change ------------------------------------------------------------

  /** `outstanding`. */
  predicate Outstanding(v: Snapshot, payments: seq<AttemptView>) {
    v.pending.Some? || v.finalLots < v.included || v.unresolved > 0 || v.reserved > 0
    || Walked(payments, v.finalLots).open
  }

  /** Nothing about this payment can still change what the view counts: history settled its doubt or its charge, or
      it charges nothing; a verdict of its own is final; or its bytes never left. */
  ghost predicate AtRest(a: Attempt, final: set<Hash>) {
    a.hash.Some? ==>
      if a.doubt then a.hash.value in final
      else if IsNodeVerdict(a.status) || a.status == Reserved then a.hash.value in final || a.reserveProtocol == 0
      else if a.status in {Minted, LostRace, Anomaly} then a.finalized
      else a.status in {Cancelled, Settled}
  }

  /** A right used without a lot, in a block that may still leave the chain. */
  ghost predicate OpenAnomaly(a: Attempt) {
    a.status == Anomaly && !a.doubt && !a.finalized && a.hash.Some?
  }

  ghost predicate AllAtRest(attempts: seq<Attempt>, final: set<Hash>) {
    forall a <- attempts :: AtRest(a, final)
  }

  lemma {:induction false} LotsAllFinal(attempts: seq<Attempt>, i: nat)
    requires CountFinalLots(Verified(attempts)) >= CountStatus(Verified(attempts), Minted)
    requires i < |attempts| && VerifiedLot(attempts[i])
    ensures attempts[i].finalized
  {
    var k := |attempts| - 1;
    LotsWithLast(attempts);
    FinalLotsWithLast(attempts);
    CountsAreDisjoint(attempts[..k], {});
    if i < k {
      LotsAllFinal(attempts[..k], i);
    }
  }

  lemma {:induction false} NoReserveNoCharge(attempts: seq<Attempt>, final: set<Hash>, i: nat)
    requires ProtocolReserved(Verified(attempts), final) == 0
    requires i < |attempts| && !attempts[i].doubt && MayCharge(attempts[i], final)
    ensures attempts[i].reserveProtocol == 0
  {
    var k := |attempts| - 1;
    VerifiedWithLast(attempts);
    if i < k {
      NoReserveNoCharge(attempts[..k], final, i);
    }
  }

  lemma {:induction false} NoOpenDoubts(attempts: seq<Attempt>, final: set<Hash>, i: nat)
    requires CountOpenDoubts(attempts, final) == 0
    requires i < |attempts| && attempts[i].doubt && attempts[i].hash.Some?
    ensures attempts[i].hash.value in final
  {
    if i < |attempts| - 1 {
      NoOpenDoubts(attempts[..|attempts| - 1], final, i);
    }
  }

  lemma {:induction false} NothingFollowed(attempts: seq<Attempt>, final: set<Hash>, i: nat)
    requires PendingView(attempts, final).None? && i < |attempts| && attempts[i].hash.Some? && !attempts[i].doubt
    ensures attempts[i].status !in {Signed, Uncertain, Sent, Included}
  {
    if i > 0 {
      NothingFollowed(attempts[1..], final, i - 1);
    }
  }

  lemma QuietMeans(rec: Record, final: set<Hash>)
    requires Chained(rec) && Shaped(rec) && !Outstanding(SnapshotOf(rec, final), Payments(rec.attempts, final))
    ensures PendingView(rec.attempts, final).None? && CountOpenDoubts(rec.attempts, final) == 0
    ensures ProtocolReserved(Verified(rec.attempts), final) == 0
    ensures CountFinalLots(Verified(rec.attempts)) >= CountStatus(Verified(rec.attempts), Minted)
    ensures !Walked(Payments(rec.attempts, final), SnapshotOf(rec, final).finalLots).open
  {
    SnapshotStaysWithinTerms(rec, final);
    DoubtedPart(rec.attempts, final);
  }

  lemma NoChargeOutstanding(rec: Record, final: set<Hash>, i: nat)
    requires PendingView(rec.attempts, final).None? && ProtocolReserved(Verified(rec.attempts), final) == 0
    requires i < |rec.attempts| && !rec.attempts[i].doubt
    requires rec.attempts[i].hash.Some? && rec.attempts[i].status !in {Minted, LostRace}
    ensures AtRest(rec.attempts[i], final) || OpenAnomaly(rec.attempts[i])
  {
    var a := rec.attempts[i];
    NothingFollowed(rec.attempts, final, i);
    if MayCharge(a, final) {
      NoReserveNoCharge(rec.attempts, final, i);
    }
  }

  lemma RestOrAnomaly(rec: Record, final: set<Hash>, i: nat)
    requires Chained(rec) && Shaped(rec) && i < |rec.attempts|
    requires !Outstanding(SnapshotOf(rec, final), Payments(rec.attempts, final))
    ensures AtRest(rec.attempts[i], final) || OpenAnomaly(rec.attempts[i])
  {
    var a := rec.attempts[i];
    QuietMeans(rec, final);
    if a.hash.Some? {
      if a.doubt {
        NoOpenDoubts(rec.attempts, final, i);
      } else if a.status == Minted {
        LotsAllFinal(rec.attempts, i);
      } else if a.status == LostRace {
        NoOpenRaceMeansFinal(rec, final, i);
      } else {
        NoChargeOutstanding(rec, final, i);
      }
    }
  }

  /** When the window sees nothing outstanding, everything is at rest exactly if no right was used without a lot in
      a block that may still leave the chain. */
  lemma NothingOutstandingMeansRest(rec: Record, final: set<Hash>)
    requires Chained(rec) && Shaped(rec) && !Outstanding(SnapshotOf(rec, final), Payments(rec.attempts, final))
    ensures AllAtRest(rec.attempts, final) <==> forall a <- rec.attempts :: !OpenAnomaly(a)
  {
    forall i | 0 <= i < |rec.attempts| ensures AtRest(rec.attempts[i], final) || OpenAnomaly(rec.attempts[i]) {
      RestOrAnomaly(rec, final, i);
    }
  }

  // ---- Finality of a right used without a lot -------------------------------------------------------

  /** The same attempts but for the finality of payments that are no lots. */
  ghost predicate SameButFinality(s: seq<Attempt>, t: seq<Attempt>) {
    |s| == |t|
    && forall i :: 0 <= i < |s| ==>
         s[i] == t[i] || (s[i].status != Minted && t[i] == s[i].(finalized := t[i].finalized))
  }

  lemma {:induction false} SameVerified(s: seq<Attempt>, t: seq<Attempt>)
    requires SameButFinality(s, t)
    ensures SameButFinality(Verified(s), Verified(t))
  {
    if s != [] {
      var k := |s| - 1;
      SameVerified(s[..k], t[..k]);
    }
  }

  ghost predicate SameSums(s: seq<Attempt>, t: seq<Attempt>, ticket: nat, final: set<Hash>) {
    && CountStatus(s, Minted) == CountStatus(t, Minted) && CountStatus(s, LostRace) == CountStatus(t, LostRace)
    && CountFinalLots(s) == CountFinalLots(t) && CountOpenDoubts(s, final) == CountOpenDoubts(t, final)
    && ProtocolSpent(s, ticket) == ProtocolSpent(t, ticket)
    && ProtocolReserved(s, final) == ProtocolReserved(t, final)
  }

  ghost predicate SameViews(s: seq<Attempt>, t: seq<Attempt>, final: set<Hash>) {
    Payments(s, final) == Payments(t, final) && LastView(s, final) == LastView(t, final)
  }

  lemma SumsWithLast(s: seq<Attempt>, t: seq<Attempt>, ticket: nat, final: set<Hash>)
    requires SameButFinality(s, t) && s != [] && SameSums(s[..|s| - 1], t[..|t| - 1], ticket, final)
    ensures SameSums(s, t, ticket, final)
  {
  }

  lemma ViewsWithLast(s: seq<Attempt>, t: seq<Attempt>, final: set<Hash>)
    requires SameButFinality(s, t) && s != [] && SameViews(s[..|s| - 1], t[..|t| - 1], final)
    ensures SameViews(s, t, final)
  {
  }

  lemma {:induction false} SameCounts(s: seq<Attempt>, t: seq<Attempt>, ticket: nat, final: set<Hash>)
    requires SameButFinality(s, t)
    ensures SameSums(s, t, ticket, final) && SameViews(s, t, final)
  {
    if s != [] {
      var k := |s| - 1;
      SameCounts(s[..k], t[..k], ticket, final);
      SumsWithLast(s, t, ticket, final);
      ViewsWithLast(s, t, final);
    }
  }

  lemma {:induction false} SamePending(s: seq<Attempt>, t: seq<Attempt>, final: set<Hash>)
    requires SameButFinality(s, t)
    ensures PendingView(s, final) == PendingView(t, final)
  {
    if s != [] {
      SamePending(s[1..], t[1..], final);
    }
  }

  /** The view shows the finality of lots alone: that of a right used without a lot, or of a lost race, is nowhere in
      it, so nothing the window infers can depend on it. */
  lemma FinalityOfOthersIsNotShown(rec: Record, k: nat, final: set<Hash>)
    requires k < |rec.attempts| && rec.attempts[k].status != Minted
    ensures SnapshotOf(MarkFinal(rec, k), final) == SnapshotOf(rec, final)
    ensures Payments(MarkFinal(rec, k).attempts, final) == Payments(rec.attempts, final)
  {
    var s, t := rec.attempts, MarkFinal(rec, k).attempts;
    SameVerified(s, t);
    SameCounts(s, t, rec.ticket, final);
    SameCounts(Verified(s), Verified(t), rec.ticket, final);
    SamePending(s, t, final);
  }

  // ---- When nothing can change any more -------------------------------------------------------------

  /** A verified lost race with no verified lot after it. */
  ghost predicate TrailingRace(attempts: seq<Attempt>, i: nat) {
    i < |attempts| && VerifiedRace(attempts[i]) && forall j :: i < j < |attempts| ==> !VerifiedLot(attempts[j])
  }

  lemma {:induction false} RestReservesNothing(attempts: seq<Attempt>, final: set<Hash>)
    requires AllAtRest(attempts, final)
    ensures ProtocolReserved(attempts, final) == 0 && CountOpenDoubts(attempts, final) == 0
  {
    if attempts != [] {
      var k := |attempts| - 1;
      assert attempts[k] in attempts && AllAtRest(attempts[..k], final);
      RestReservesNothing(attempts[..k], final);
    }
  }

  lemma {:induction false} RestIsVerified(attempts: seq<Attempt>, final: set<Hash>)
    requires AllAtRest(attempts, final)
    ensures AllAtRest(Verified(attempts), final)
  {
    if attempts != [] {
      var k := |attempts| - 1;
      RestIsVerified(attempts[..k], final);
    }
  }

  lemma {:induction false} RestLotsAreFinal(attempts: seq<Attempt>, final: set<Hash>, used: nat)
    requires AllAtRest(attempts, final) && forall i :: 0 <= i < |attempts| ==> AttemptOk(attempts[i], i, used)
    ensures CountFinalLots(Verified(attempts)) == CountStatus(Verified(attempts), Minted)
  {
    if attempts != [] {
      var k := |attempts| - 1;
      assert attempts[k] in attempts && AllAtRest(attempts[..k], final);
      RestLotsAreFinal(attempts[..k], final, used);
      LotsWithLast(attempts);
      FinalLotsWithLast(attempts);
    }
  }

  lemma {:induction false} RestFollowsNothing(attempts: seq<Attempt>, final: set<Hash>)
    requires AllAtRest(attempts, final)
    ensures PendingView(attempts, final).None?
  {
    if attempts != [] {
      assert attempts[0] in attempts && AllAtRest(attempts[1..], final);
      RestFollowsNothing(attempts[1..], final);
    }
  }

  lemma NextLots(attempts: seq<Attempt>, m: nat)
    requires m < |attempts|
    ensures CountStatus(Verified(attempts[..m + 1]), Minted)
         == CountStatus(Verified(attempts[..m]), Minted) + if VerifiedLot(attempts[m]) then 1 else 0
  {
    assert attempts[..m + 1][..m] == attempts[..m];
    LotsWithLast(attempts[..m + 1]);
  }

  lemma {:induction false} LotsUpTo(attempts: seq<Attempt>, j: nat, m: nat)
    requires j < m <= |attempts| && VerifiedLot(attempts[j])
    ensures CountStatus(Verified(attempts[..j]), Minted) < CountStatus(Verified(attempts[..m]), Minted)
    decreases m
  {
    NextLots(attempts, m - 1);
    if j < m - 1 {
      LotsUpTo(attempts, j, m - 1);
    }
  }

  lemma RacesAtRest(attempts: seq<Attempt>)
    ensures RacesBeforeLots(attempts, CountStatus(Verified(attempts), Minted))
       <==> forall i :: 0 <= i < |attempts| ==> !TrailingRace(attempts, i)
  {
    assert attempts[..|attempts|] == attempts;
    var lots := CountStatus(Verified(attempts), Minted);
    forall j | 0 <= j < |attempts| && VerifiedLot(attempts[j]) ensures AmongFirst(attempts, j, lots) {
      LotsUpTo(attempts, j, |attempts|);
    }
    forall i | 0 <= i < |attempts| && VerifiedRace(attempts[i])
      ensures LotAfter(attempts, i, lots) <==> !TrailingRace(attempts, i)
    {
    }
  }

  /** Once everything is at rest, the window still sees something outstanding exactly when a lost race has no lot
      after it, final as that race is: only a later final lot tells the window so. */
  lemma RestShowsTrailingRaces(rec: Record, final: set<Hash>)
    requires Chained(rec) && Shaped(rec) && AllAtRest(rec.attempts, final)
    ensures Outstanding(SnapshotOf(rec, final), Payments(rec.attempts, final))
       <==> exists i :: TrailingRace(rec.attempts, i)
  {
    RestReservesNothing(rec.attempts, final);
    RestIsVerified(rec.attempts, final);
    RestReservesNothing(Verified(rec.attempts), final);
    RestLotsAreFinal(rec.attempts, final, rec.used);
    RestFollowsNothing(rec.attempts, final);
    SnapshotStaysWithinTerms(rec, final);
    WalkMeans(rec.attempts, final, CountStatus(Verified(rec.attempts), Minted), rec.used);
    RacesAtRest(rec.attempts);
  }

  lemma EarlierIsFinal(rec: Record, k: nat, final: set<Hash>)
    requires Chained(rec) && AttemptsOk(rec) && k < |rec.attempts|
    requires forall i :: 0 <= i < |rec.attempts| && i != k ==> AtRest(rec.attempts[i], final)
    ensures forall i :: 0 <= i < k ==> rec.attempts[i].finalized || rec.attempts[i].doubt
  {
    forall i | 0 <= i < k ensures rec.attempts[i].finalized || rec.attempts[i].doubt {
      assert LedgerSoundness.Followed(rec, i);
    }
  }

  lemma RestOnceFinal(rec: Record, k: nat, final: set<Hash>)
    requires k < |rec.attempts| && OpenAnomaly(rec.attempts[k])
    requires forall i :: 0 <= i < |rec.attempts| && i != k ==> AtRest(rec.attempts[i], final)
    ensures AllAtRest(MarkFinal(rec, k).attempts, final)
    ensures forall i :: TrailingRace(MarkFinal(rec, k).attempts, i) <==> TrailingRace(rec.attempts, i)
  {
    var attempts := MarkFinal(rec, k).attempts;
    forall j | 0 <= j < |attempts|
      ensures VerifiedLot(attempts[j]) <==> VerifiedLot(rec.attempts[j])
      ensures VerifiedRace(attempts[j]) <==> VerifiedRace(rec.attempts[j])
    {
    }
  }

  /** A right used without a lot, with all the rest settled, is shown no more than if its block were final. */
  lemma OpenAnomalyIsNotShown(rec: Record, k: nat, final: set<Hash>)
    requires Chained(rec) && Shaped(rec) && k < |rec.attempts| && OpenAnomaly(rec.attempts[k])
    requires forall i :: 0 <= i < |rec.attempts| && i != k ==> AtRest(rec.attempts[i], final)
    ensures Outstanding(SnapshotOf(rec, final), Payments(rec.attempts, final))
       <==> exists i :: TrailingRace(rec.attempts, i)
  {
    assert AttemptOk(rec.attempts[k], k, rec.used);
    EarlierIsFinal(rec, k, final);
    MarkFinalStands(rec, k);
    FinalityOfOthersIsNotShown(rec, k, final);
    RestOnceFinal(rec, k, final);
    RestShowsTrailingRaces(MarkFinal(rec, k), final);
  }

  // ---- Two records that show it ---------------------------------------------------------------------

  /** A session whose only payment ended as `status`. */
  function Lone(status: Status, finalized: bool): Record {
    Record(0, 0, 0, Terms(0, 1, 1, 1, 1, 1), 0, 1, 0, 100_000, true, Some(PaymentAnomaly), Some(0), 1, false,
           [Attempt(1, status, 1, 1, Position(1, 1, 0), 0, 0, Block(1, 1), 0, 0, 0, 1, Some(7),
                    Some(Position(2, 2, 0)), finalized, false)])
  }

  lemma LoneIsSound(status: Status, finalized: bool)
    requires status in {LostRace, Anomaly}
    ensures Chained(Lone(status, finalized)) && Shaped(Lone(status, finalized))
  {
    var rec := Lone(status, finalized);
    assert rec.attempts[..0] == [];
    assert Admitted(rec, 0);
  }

  /** Nothing outstanding is seen of a session whose only payment is an open anomaly. */
  lemma LoneAnomaly(rec: Record, final: set<Hash>)
    requires Chained(rec) && Shaped(rec) && |rec.attempts| == 1 && OpenAnomaly(rec.attempts[0])
    ensures !Outstanding(SnapshotOf(rec, final), Payments(rec.attempts, final))
  {
    OpenAnomalyIsNotShown(rec, 0, final);
  }

  /** Something outstanding is seen of a session whose only payment lost a race, final as it is. */
  lemma LoneRace(rec: Record, final: set<Hash>)
    requires Chained(rec) && Shaped(rec) && |rec.attempts| == 1 && VerifiedRace(rec.attempts[0])
    requires rec.attempts[0].finalized
    ensures Outstanding(SnapshotOf(rec, final), Payments(rec.attempts, final)) && AllAtRest(rec.attempts, final)
  {
    assert TrailingRace(rec.attempts, 0);
    RestShowsTrailingRaces(rec, final);
  }

  /** Both happen. */
  lemma WindowMisjudgesTwo()
    ensures !Outstanding(SnapshotOf(Lone(Anomaly, false), {}), Payments(Lone(Anomaly, false).attempts, {}))
    ensures OpenAnomaly(Lone(Anomaly, false).attempts[0])
    ensures Outstanding(SnapshotOf(Lone(LostRace, true), {}), Payments(Lone(LostRace, true).attempts, {}))
    ensures AllAtRest(Lone(LostRace, true).attempts, {})
  {
    LoneIsSound(Anomaly, false);
    LoneAnomaly(Lone(Anomaly, false), {});
    LoneIsSound(LostRace, true);
    LoneRace(Lone(LostRace, true), {});
  }
}
