/** What each number and payment of a snapshot is, in the fields of the record it was made from. */
module SnapshotMeaning {
  import opened MintTypes
  import opened SpendAccounting
  import opened SessionSnapshots

  // ---- Spends and reserves --------------------------------------------------------------------------

  /** A payment out of doubt whose right the session used. */
  predicate Debited(a: Attempt) {
    !a.doubt && (a.status == Minted || a.status == Anomaly)
  }

  /** Signed, not final in history, and in doubt, undecided, or decided on the node's word alone. */
  predicate Chargeable(a: Attempt, final: set<Hash>) {
    a.hash.Some? && a.hash.value !in final
    && (a.doubt || a.status in {Reserved, Signed, Uncertain, Sent, Included, Failed, Dead, Expired, Replaced})
  }

  ghost function DebitedChoice(attempts: seq<Attempt>): Choice {
    seq(|attempts|, i requires 0 <= i < |attempts| => Debited(attempts[i]))
  }

  /** The payments that may still be charged, all of them or those out of doubt. */
  ghost function ChargeableChoice(attempts: seq<Attempt>, final: set<Hash>, doubted: bool): Choice {
    seq(|attempts|, i requires 0 <= i < |attempts| =>
      Chargeable(attempts[i], final) && (doubted || !attempts[i].doubt))
  }

  /** Total reserve of the chosen attempts. */
  ghost function ChosenReserve(attempts: seq<Attempt>, choice: Choice): nat
    requires |choice| == |attempts|
  {
    if attempts == [] then 0
    else
      var k := |attempts| - 1;
      ChosenReserve(attempts[..k], choice[..k]) + if choice[k] then attempts[k].reserveProtocol else 0
  }

  lemma {:induction false} SpentIsTotal(attempts: seq<Attempt>, ticket: nat)
    ensures ProtocolSpent(attempts, ticket) == ChosenCharge(attempts, DebitedChoice(attempts), ticket)
  {
    if attempts != [] {
      var k := |attempts| - 1;
      SpentIsTotal(attempts[..k], ticket);
      assert DebitedChoice(attempts)[..k] == DebitedChoice(attempts[..k]);
    }
  }

  lemma {:induction false} ReservedIsTotal(attempts: seq<Attempt>, final: set<Hash>)
    ensures ProtocolReserved(attempts, final) == ChosenReserve(attempts, ChargeableChoice(attempts, final, true))
  {
    if attempts != [] {
      var k := |attempts| - 1;
      ReservedIsTotal(attempts[..k], final);
      assert ChargeableChoice(attempts, final, true)[..k] == ChargeableChoice(attempts[..k], final, true);
    }
  }

  lemma {:induction false} BoundedIsTotal(attempts: seq<Attempt>, final: set<Hash>)
    ensures ProtocolReserved(Verified(attempts), final)
         == ChosenReserve(attempts, ChargeableChoice(attempts, final, false))
  {
    if attempts != [] {
      var k := |attempts| - 1;
      BoundedIsTotal(attempts[..k], final);
      assert ChargeableChoice(attempts, final, false)[..k] == ChargeableChoice(attempts[..k], final, false);
      VerifiedWithLast(attempts);
    }
  }

  // ---- Counts ---------------------------------------------------------------------------------------

  predicate HasVerdict(a: Attempt, status: Status) {
    !a.doubt && a.status == status
  }

  ghost function VerifiedAs(attempts: seq<Attempt>, status: Status): set<nat> {
    set i: nat | i < |attempts| && HasVerdict(attempts[i], status)
  }

  ghost function FinalLots(attempts: seq<Attempt>): set<nat> {
    set i: nat | i < |attempts| && !attempts[i].doubt && attempts[i].status == Minted && attempts[i].finalized
  }

  ghost function OpenDoubts(attempts: seq<Attempt>, final: set<Hash>): set<nat> {
    set i: nat | i < |attempts| && attempts[i].doubt && attempts[i].hash.Some? && attempts[i].hash.value !in final
  }

  lemma OneMoreVerified(s: seq<Attempt>, a: Attempt, status: Status)
    ensures |VerifiedAs(s + [a], status)| == |VerifiedAs(s, status)| + if HasVerdict(a, status) then 1 else 0
  {
    assert VerifiedAs(s + [a], status) == VerifiedAs(s, status) + if HasVerdict(a, status) then {|s|} else {};
  }

  lemma CountWithLast(attempts: seq<Attempt>, status: Status)
    requires attempts != []
    ensures
      var k, a := |attempts| - 1, attempts[|attempts| - 1];
      CountStatus(Verified(attempts), status)
      == CountStatus(Verified(attempts[..k]), status) + if !a.doubt && a.status == status then 1 else 0
  {
    VerifiedWithLast(attempts);
  }

  lemma {:induction false} VerifiedAreCounted(attempts: seq<Attempt>, status: Status)
    ensures CountStatus(Verified(attempts), status) == |VerifiedAs(attempts, status)|
  {
    if attempts == [] {
      assert VerifiedAs(attempts, status) == {};
    } else {
      var k := |attempts| - 1;
      VerifiedAreCounted(attempts[..k], status);
      CountWithLast(attempts, status);
      assert attempts == attempts[..k] + [attempts[k]];
      OneMoreVerified(attempts[..k], attempts[k], status);
    }
  }

  lemma FinalLotsWithLast(attempts: seq<Attempt>)
    requires attempts != []
    ensures
      var k, a := |attempts| - 1, attempts[|attempts| - 1];
      |FinalLots(attempts)|
      == |FinalLots(attempts[..k])| + if !a.doubt && a.status == Minted && a.finalized then 1 else 0
  {
    var k, a := |attempts| - 1, attempts[|attempts| - 1];
    assert FinalLots(attempts)
      == FinalLots(attempts[..k]) + if !a.doubt && a.status == Minted && a.finalized then {k} else {};
  }

  lemma FinalCountWithLast(attempts: seq<Attempt>)
    requires attempts != []
    ensures
      var k, a := |attempts| - 1, attempts[|attempts| - 1];
      CountFinalLots(Verified(attempts))
      == CountFinalLots(Verified(attempts[..k])) + if !a.doubt && a.status == Minted && a.finalized then 1 else 0
  {
    VerifiedWithLast(attempts);
  }

  lemma {:induction false} FinalLotsAreCounted(attempts: seq<Attempt>)
    ensures CountFinalLots(Verified(attempts)) == |FinalLots(attempts)|
  {
    if attempts == [] {
      assert FinalLots(attempts) == {};
    } else {
      FinalLotsAreCounted(attempts[..|attempts| - 1]);
      FinalLotsWithLast(attempts);
      FinalCountWithLast(attempts);
    }
  }

  lemma {:induction false} OpenDoubtsAreCounted(attempts: seq<Attempt>, final: set<Hash>)
    ensures CountOpenDoubts(attempts, final) == |OpenDoubts(attempts, final)|
  {
    if attempts == [] {
      assert OpenDoubts(attempts, final) == {};
    } else {
      var k, a := |attempts| - 1, attempts[|attempts| - 1];
      OpenDoubtsAreCounted(attempts[..k], final);
      assert OpenDoubts(attempts, final)
        == OpenDoubts(attempts[..k], final) + if a.doubt && a.hash.Some? && a.hash.value !in final then {k} else {};
    }
  }

  ghost function AllAs(attempts: seq<Attempt>, status: Status): set<nat> {
    set i: nat | i < |attempts| && attempts[i].status == status
  }

  lemma AllAsWithLast(attempts: seq<Attempt>, status: Status)
    requires attempts != []
    ensures
      var k := |attempts| - 1;
      |AllAs(attempts, status)| == |AllAs(attempts[..k], status)| + if attempts[k].status == status then 1 else 0
  {
    var k := |attempts| - 1;
    assert AllAs(attempts, status)
      == AllAs(attempts[..k], status) + if attempts[k].status == status then {k} else {};
  }

  /** Every attempt of one status, in doubt or not. */
  lemma {:induction false} StatusIsCounted(attempts: seq<Attempt>, status: Status)
    ensures CountStatus(attempts, status) == |AllAs(attempts, status)|
  {
    if attempts == [] {
      assert AllAs(attempts, status) == {};
    } else {
      StatusIsCounted(attempts[..|attempts| - 1], status);
      AllAsWithLast(attempts, status);
    }
  }

  // ---- Payments shown -------------------------------------------------------------------------------

  /** What is shown of a signed payment: a doubt until history settles it, otherwise its own status, where a right used
      without a lot reads as failed. */
  ghost predicate Shows(v: AttemptView, a: Attempt, final: set<Hash>)
    requires a.hash.Some?
  {
    && v.hash == a.hash.value && v.lot == a.lot && v.lastBlock == a.birth.height + 255
    && v.status == if a.doubt then (if a.hash.value in final then PublicSettled else PublicUnresolved)
                   else match a.status
                        case Settled => PublicSettled
                        case Anomaly => Verdict(Failed)
                        case status => Verdict(status)
  }

  predicate IsPending(a: Attempt) {
    !a.doubt && a.hash.Some? && a.status in {Signed, Uncertain, Sent, Included}
  }

  predicate IsOver(a: Attempt) {
    a.hash.Some? && (a.doubt || a.status !in {Reserved, Signed, Uncertain, Sent, Included})
  }

  lemma {:induction false} PendingIsFirst(attempts: seq<Attempt>, final: set<Hash>)
    ensures PendingView(attempts, final).Some? <==> exists i :: 0 <= i < |attempts| && IsPending(attempts[i])
    ensures forall i :: 0 <= i < |attempts| && IsPending(attempts[i])
                        && (forall j :: 0 <= j < i ==> !IsPending(attempts[j])) ==>
              PendingView(attempts, final).Some? && Shows(PendingView(attempts, final).value, attempts[i], final)
  {
    if attempts != [] && !IsPending(attempts[0]) {
      PendingIsFirst(attempts[1..], final);
      assert forall i :: 0 < i < |attempts| ==> attempts[i] == attempts[1..][i - 1];
      if PendingView(attempts, final).Some? {
        var i :| 0 <= i < |attempts[1..]| && IsPending(attempts[1..][i]);
        assert IsPending(attempts[i + 1]);
      }
    }
  }

  lemma {:induction false} LastIsLatest(attempts: seq<Attempt>, final: set<Hash>)
    ensures LastView(attempts, final).Some? <==> exists i :: 0 <= i < |attempts| && IsOver(attempts[i])
    ensures forall i :: 0 <= i < |attempts| && IsOver(attempts[i])
                        && (forall j :: i < j < |attempts| ==> !IsOver(attempts[j])) ==>
              LastView(attempts, final).Some? && Shows(LastView(attempts, final).value, attempts[i], final)
  {
    if attempts != [] && !IsOver(attempts[|attempts| - 1]) {
      LastIsLatest(attempts[..|attempts| - 1], final);
    }
  }

  // ---- The snapshot ---------------------------------------------------------------------------------

  /** The number of verified lots, lost races, final lots and open doubts, and of signatures counted. */
  ghost predicate CountsAre(v: Snapshot, rec: Record, final: set<Hash>) {
    && v.included == |VerifiedAs(rec.attempts, Minted)| && v.lostRaces == |VerifiedAs(rec.attempts, LostRace)|
    && v.finalLots == |FinalLots(rec.attempts)| && v.unresolved == |OpenDoubts(rec.attempts, final)|
    && v.used == rec.used && v.reorganized == rec.reorganized
  }

  /** What was spent; what is reserved for payments out of doubt, and for those in doubt as far as the cap has room. */
  ghost predicate SpendsAre(v: Snapshot, rec: Record, final: set<Hash>) {
    var certain := ChosenReserve(rec.attempts, ChargeableChoice(rec.attempts, final, false));
    var all := ChosenReserve(rec.attempts, ChargeableChoice(rec.attempts, final, true));
    var room := rec.terms.maxSpend - v.spent - certain;
    && v.spent == ChosenCharge(rec.attempts, DebitedChoice(rec.attempts), rec.ticket) && Room(rec, final) == room
    && v.reserved == if room <= 0 then certain else if all <= certain + room then all else certain + room
  }

  /** The first payment still followed, and the latest one that is not. */
  ghost predicate PaymentsAre(v: Snapshot, attempts: seq<Attempt>, final: set<Hash>) {
    && (v.pending.Some? <==> exists i :: 0 <= i < |attempts| && IsPending(attempts[i]))
    && (forall i :: 0 <= i < |attempts| && IsPending(attempts[i])
                    && (forall j :: 0 <= j < i ==> !IsPending(attempts[j])) ==>
          v.pending.Some? && Shows(v.pending.value, attempts[i], final))
    && (v.last.Some? <==> exists i :: 0 <= i < |attempts| && IsOver(attempts[i]))
    && (forall i :: 0 <= i < |attempts| && IsOver(attempts[i])
                    && (forall j :: i < j < |attempts| ==> !IsOver(attempts[j])) ==>
          v.last.Some? && Shows(v.last.value, attempts[i], final))
  }

  /** Every part of a snapshot, in the fields of its record. */
  lemma SnapshotIsExact(rec: Record, final: set<Hash>)
    ensures
      var v := SnapshotOf(rec, final);
      CountsAre(v, rec, final) && SpendsAre(v, rec, final) && PaymentsAre(v, rec.attempts, final)
  {
    VerifiedAreCounted(rec.attempts, Minted);
    VerifiedAreCounted(rec.attempts, LostRace);
    FinalLotsAreCounted(rec.attempts);
    OpenDoubtsAreCounted(rec.attempts, final);
    SpentIsTotal(rec.attempts, rec.ticket);
    ReservedIsTotal(rec.attempts, final);
    BoundedIsTotal(rec.attempts, final);
    DoubtedPart(rec.attempts, final);
    PendingIsFirst(rec.attempts, final);
    LastIsLatest(rec.attempts, final);
  }
}
