/** What a site is shown of a session, and the relations it checks. */
module SessionSnapshots {
  import opened MintTypes
  import opened SpendAccounting

  /** Fee and ticket of every verified attempt whose right was used by this session. */
  function ProtocolSpent(attempts: seq<Attempt>, ticket: nat): nat {
    if attempts == [] then 0
    else
      var k := |attempts| - 1;
      var a := attempts[k];
      ProtocolSpent(attempts[..k], ticket)
      + if !a.doubt && (a.status == Minted || a.status == Anomaly) then Charge(a, ticket) else 0
  }

  /** No proof and no final entry excludes a charge; `final` holds the hashes final in history. */
  predicate MayCharge(a: Attempt, final: set<Hash>) {
    a.hash.Some? && (IsUnresolved(a) || IsNodeVerdict(a.status) || a.doubt) && a.hash.value !in final
  }

  function ProtocolReserved(attempts: seq<Attempt>, final: set<Hash>): nat {
    if attempts == [] then 0
    else
      var k := |attempts| - 1;
      ProtocolReserved(attempts[..k], final)
      + if MayCharge(attempts[k], final) then attempts[k].reserveProtocol else 0
  }

  /** The attempts not in doubt. */
  function Verified(attempts: seq<Attempt>): seq<Attempt> {
    if attempts == [] then []
    else
      var k := |attempts| - 1;
      Verified(attempts[..k]) + if attempts[k].doubt then [] else [attempts[k]]
  }

  function CountFinalLots(attempts: seq<Attempt>): nat {
    if attempts == [] then 0
    else
      var k := |attempts| - 1;
      CountFinalLots(attempts[..k]) + if attempts[k].status == Minted && attempts[k].finalized then 1 else 0
  }

  /** Payments in doubt that history has not settled. */
  function CountOpenDoubts(attempts: seq<Attempt>, final: set<Hash>): nat {
    if attempts == [] then 0
    else
      var k := |attempts| - 1;
      CountOpenDoubts(attempts[..k], final)
      + if attempts[k].doubt && attempts[k].hash.Some? && attempts[k].hash.value !in final then 1 else 0
  }

  datatype PublicStatus = Verdict(status: Status) | PublicUnresolved | PublicSettled

  datatype AttemptView = AttemptView(hash: Hash, lot: nat, status: PublicStatus, lastBlock: nat)

  function StatusView(a: Attempt, final: set<Hash>): PublicStatus {
    if a.doubt then (if a.hash.Some? && a.hash.value in final then PublicSettled else PublicUnresolved)
    else if a.status == Settled then PublicSettled
    else if a.status == Anomaly then Verdict(Failed)
    else Verdict(a.status)
  }

  function ViewOf(a: Attempt, final: set<Hash>): Option<AttemptView> {
    if a.hash.None? then None
    else Some(AttemptView(a.hash.value, a.lot, StatusView(a, final), a.birth.height + ERA_PERIOD - 1))
  }

  /** The view of the first attempt that is signed, undecided and not in doubt. */
  function PendingView(attempts: seq<Attempt>, final: set<Hash>): Option<AttemptView> {
    if attempts == [] then None
    else if !attempts[0].doubt && attempts[0].hash.Some? && attempts[0].status in {Signed, Uncertain, Sent, Included}
    then ViewOf(attempts[0], final)
    else PendingView(attempts[1..], final)
  }

  /** The view of the latest attempt with a hash that is decided or in doubt. */
  function LastView(attempts: seq<Attempt>, final: set<Hash>): Option<AttemptView> {
    if attempts == [] then None
    else
      var a := attempts[|attempts| - 1];
      if a.hash.Some? && (a.doubt || !IsUnresolved(a)) then ViewOf(a, final)
      else LastView(attempts[..|attempts| - 1], final)
  }

  datatype Snapshot = Snapshot(
    included: nat,
    finalLots: nat,
    used: nat,
    lostRaces: nat,
    unresolved: nat,
    spent: nat,
    reserved: int,
    reorganized: bool,
    pending: Option<AttemptView>,
    last: Option<AttemptView>)

  /** What the cap leaves once verified spends and bounded reserves are counted. */
  function Room(rec: Record, final: set<Hash>): int {
    rec.terms.maxSpend - ProtocolSpent(rec.attempts, rec.ticket) - ProtocolReserved(Verified(rec.attempts), final)
  }

  function SnapshotOf(rec: Record, final: set<Hash>): Snapshot {
    var verified := Verified(rec.attempts);
    var bounded := ProtocolReserved(verified, final);
    var doubted := ProtocolReserved(rec.attempts, final) - bounded;
    var room := Room(rec, final);
    var clamped := if room < 0 then 0 else if doubted < room then doubted else room;
    Snapshot(
      CountStatus(verified, Minted), CountFinalLots(verified), rec.used, CountStatus(verified, LostRace),
      CountOpenDoubts(rec.attempts, final),
      ProtocolSpent(rec.attempts, rec.ticket), bounded + clamped,
      rec.reorganized, PendingView(rec.attempts, final), LastView(rec.attempts, final))
  }

  predicate TermsOk(t: Terms) {
    && 1 <= t.maxLots <= 25
    && t.maxLots <= t.maxAttempts <= t.maxLots + (if t.maxLots < 10 then t.maxLots else 10)
    && t.lotAmount > 0 && t.maxFeePerLot > 0 && t.maxSpend > 0
  }

  predicate StillFollowed(s: PublicStatus) {
    s.Verdict? && s.status in {Signed, Uncertain, Sent, Included}
  }

  predicate NoLongerFollowed(s: PublicStatus) {
    !s.Verdict? || s.status in {Minted, LostRace, Failed, Cancelled, Dead, Expired, Replaced}
  }

  /** The relations between counters every snapshot reader checks. */
  predicate SnapshotParses(t: Terms, s: Snapshot) {
    && TermsOk(t)
    && s.finalLots <= s.included <= t.maxLots
    && (s.reorganized || s.unresolved == 0)
    && s.used <= t.maxAttempts
    && s.included + s.lostRaces + s.unresolved <= s.used
    && s.spent <= t.maxSpend
    && s.spent + s.reserved <= t.maxSpend
    && (s.pending.Some? ==> StillFollowed(s.pending.value.status))
    && (s.last.Some? ==> NoLongerFollowed(s.last.value.status))
  }

  // ---- Accounting of the parts ----------------------------------------------------------------------

  /** Verified lots, verified lost races and open doubts are different attempts. */
  lemma {:induction false} CountsAreDisjoint(attempts: seq<Attempt>, final: set<Hash>)
    ensures CountStatus(Verified(attempts), Minted) + CountStatus(Verified(attempts), LostRace)
          + CountOpenDoubts(attempts, final) <= |attempts|
    ensures CountFinalLots(Verified(attempts)) <= CountStatus(Verified(attempts), Minted)
            <= CountStatus(attempts, Minted)
  {
    if attempts != [] {
      var k := |attempts| - 1;
      CountsAreDisjoint(attempts[..k], final);
      VerifiedWithLast(attempts);
    }
  }

  lemma VerifiedWithLast(attempts: seq<Attempt>)
    requires attempts != []
    ensures
      var k := |attempts| - 1;
      var before := Verified(attempts[..k]);
      if attempts[k].doubt then Verified(attempts) == before
      else Verified(attempts) != [] && Verified(attempts)[..|Verified(attempts)| - 1] == before
           && Verified(attempts)[|Verified(attempts)| - 1] == attempts[k]
  {
  }

  ghost predicate VerifiedLot(a: Attempt) {
    a.status == Minted && !a.doubt
  }

  lemma LotsWithLast(attempts: seq<Attempt>)
    requires attempts != []
    ensures CountStatus(Verified(attempts), Minted)
         == CountStatus(Verified(attempts[..|attempts| - 1]), Minted)
            + if VerifiedLot(attempts[|attempts| - 1]) then 1 else 0
  {
    VerifiedWithLast(attempts);
  }

  /** Payments that admitted a successor reserve nothing once verified, and verified spends stay within
      the charges of the minted ones. */
  lemma {:induction false} AdmittingPrefix(attempts: seq<Attempt>, ticket: nat, final: set<Hash>)
    requires forall i :: 0 <= i < |attempts| ==> AdmitsSuccessor(attempts[i].status)
    ensures ProtocolReserved(Verified(attempts), final) == 0
    ensures ProtocolSpent(attempts, ticket) <= ChosenCharge(attempts, MintedChoice(attempts), ticket)
    ensures Chosen(MintedChoice(attempts)) == CountStatus(attempts, Minted)
  {
    if attempts != [] {
      var k := |attempts| - 1;
      AdmittingPrefix(attempts[..k], ticket, final);
      VerifiedWithLast(attempts);
      assert MintedChoice(attempts)[..k] == MintedChoice(attempts[..k]);
    }
  }

  function MintedChoice(attempts: seq<Attempt>): Choice {
    seq(|attempts|, i requires 0 <= i < |attempts| => attempts[i].status == Minted)
  }

  lemma {:induction false} DoubtedPart(attempts: seq<Attempt>, final: set<Hash>)
    ensures ProtocolReserved(Verified(attempts), final) <= ProtocolReserved(attempts, final)
  {
    if attempts != [] {
      DoubtedPart(attempts[..|attempts| - 1], final);
      VerifiedWithLast(attempts);
    }
  }

  lemma {:induction false} PendingIsFollowed(attempts: seq<Attempt>, final: set<Hash>)
    ensures PendingView(attempts, final).Some? ==> StillFollowed(PendingView(attempts, final).value.status)
  {
    if attempts != [] {
      PendingIsFollowed(attempts[1..], final);
    }
  }

  lemma {:induction false} LastIsNotFollowed(attempts: seq<Attempt>, final: set<Hash>)
    ensures LastView(attempts, final).Some? ==> NoLongerFollowed(LastView(attempts, final).value.status)
  {
    if attempts != [] {
      LastIsNotFollowed(attempts[..|attempts| - 1], final);
    }
  }

  lemma {:induction false} DoubtsNeedAFlag(attempts: seq<Attempt>, final: set<Hash>)
    requires forall i :: 0 <= i < |attempts| ==> !attempts[i].doubt
    ensures CountOpenDoubts(attempts, final) == 0
  {
    if attempts != [] {
      DoubtsNeedAFlag(attempts[..|attempts| - 1], final);
    }
  }
}
