/** What every record a wallet writes satisfies, and why it always passes the validator. */
module LedgerSoundness {
  import opened MintTypes
  import opened SpendAccounting
  import opened SessionSnapshots
  import opened StoredLedger

  // ---- The invariant of a record --------------------------------------------------------------------

  /** The facts under which attempt `k` was reserved. They read only earlier verdicts, which never change. */
  ghost predicate Admitted(rec: Record, k: nat)
    requires k < |rec.attempts|
  {
    var before := rec.attempts[..k];
    && ProtocolBound(before, rec.ticket) + Charge(rec.attempts[k], rec.ticket) <= rec.terms.maxSpend
    && CountStatus(before, Minted) < rec.terms.maxLots
    && CountStatus(before, LostRace) <= Retries(rec.terms)
    && rec.attempts[k].held == rec.attempts[0].held + rec.terms.lotAmount * CountStatus(before, Minted)
  }

  /** Attempt `i` is followed by another one: it was verified, in a block at most as high as the next birth. */
  ghost predicate Followed(rec: Record, i: nat)
    requires i + 1 < |rec.attempts|
  {
    var a := rec.attempts[i];
    && AdmitsSuccessor(a.status) && a.hash.Some? && a.inclusion.Some?
    && a.inclusion.value.height <= rec.attempts[i + 1].birth.height
    && a.birth.height < rec.attempts[i + 1].birth.height
    && rec.attempts[i + 1].nonce == a.nonce + 1
  }

  ghost predicate Chained(rec: Record) {
    && TermsOk(rec.terms)
    && rec.used == |rec.attempts| <= rec.terms.maxAttempts
    && (forall i :: 0 <= i < |rec.attempts| ==>
          rec.attempts[i].n == i + 1 && rec.attempts[i].reserveProtocol == Charge(rec.attempts[i], rec.ticket))
    && (forall i :: 0 <= i < |rec.attempts| - 1 ==> Followed(rec, i))
    && (forall k :: 0 <= k < |rec.attempts| ==> Admitted(rec, k))
  }

  /** A later inclusion is final only after every earlier one is, unless that one is in doubt. */
  ghost predicate FinalInOrder(rec: Record) {
    forall i, j :: 0 <= i < j < |rec.attempts| && rec.attempts[j].finalized ==>
      rec.attempts[i].finalized || rec.attempts[i].doubt
  }

  ghost predicate SomeDoubt(rec: Record) {
    exists i :: 0 <= i < |rec.attempts| && rec.attempts[i].doubt
  }

  ghost predicate Shaped(rec: Record) {
    && AttemptsOk(rec)
    && (rec.ended <==> rec.reason.Some?) && (rec.ended <==> rec.endedAt.Some?)
    && (rec.reorganized <==> SomeDoubt(rec))
    && (!rec.ended ==> forall i :: 0 <= i < |rec.attempts| ==> rec.attempts[i].status != Settled)
    && FinalInOrder(rec)
  }

  ghost predicate Journaled(rec: Record, lines: seq<Line>) {
    forall i :: 0 <= i < |rec.attempts| ==> OneMatchingLine(lines, rec.attempts[i], rec)
  }

  ghost predicate Sound(rec: Record, lines: seq<Line>) {
    Chained(rec) && Shaped(rec) && Journaled(rec, lines)
  }

  // ---- How a record may change ----------------------------------------------------------------------

  ghost predicate SameOrigin(a: Attempt, b: Attempt) {
    b == a.(status := b.status, hash := b.hash, inclusion := b.inclusion, finalized := b.finalized, doubt := b.doubt)
  }

  ghost predicate SameHeader(r: Record, s: Record) {
    s == r.(ended := s.ended, reason := s.reason, endedAt := s.endedAt, reorganized := s.reorganized,
            attempts := s.attempts)
  }

  /** Same reservations; only the last attempt may change its status, hash or inclusion. */
  ghost predicate SameChain(r: Record, s: Record) {
    && SameHeader(r, s) && |s.attempts| == |r.attempts|
    && (forall i :: 0 <= i < |r.attempts| ==> SameOrigin(r.attempts[i], s.attempts[i]))
    && (forall i :: 0 <= i < |r.attempts| - 1 ==>
          && s.attempts[i].status == r.attempts[i].status
          && s.attempts[i].hash == r.attempts[i].hash
          && s.attempts[i].inclusion == r.attempts[i].inclusion)
  }

  lemma {:induction false} SameVerdicts(before: seq<Attempt>, after: seq<Attempt>, ticket: nat)
    requires |before| == |after|
    requires forall i :: 0 <= i < |before| ==> after[i].status == before[i].status && after[i].fee == before[i].fee
    ensures CouldSucceed(after, ticket) == CouldSucceed(before, ticket)
    ensures forall s :: CountStatus(after, s) == CountStatus(before, s)
  {
    if before != [] {
      SameVerdicts(before[..|before| - 1], after[..|before| - 1], ticket);
    }
  }

  lemma AdmissionStands(r: Record, s: Record, k: nat)
    requires SameChain(r, s) && k < |r.attempts| && Admitted(r, k)
    ensures Admitted(s, k)
  {
    SameVerdicts(r.attempts[..k], s.attempts[..k], r.ticket);
  }

  lemma ChainStands(r: Record, s: Record)
    requires Chained(r) && SameChain(r, s)
    ensures Chained(s)
  {
    forall k | 0 <= k < |s.attempts| ensures Admitted(s, k) {
      AdmissionStands(r, s, k);
    }
    forall i | 0 <= i < |s.attempts| - 1 ensures Followed(s, i) {
      assert Followed(r, i);
    }
  }

  // ---- Steps on one record --------------------------------------------------------------------------

  function LastOf(rec: Record): Attempt
    requires rec.attempts != []
  {
    rec.attempts[|rec.attempts| - 1]
  }

  function WithLast(rec: Record, a: Attempt): Record
    requires rec.attempts != []
  {
    rec.(attempts := rec.attempts[|rec.attempts| - 1 := a])
  }

  /** A new state of the last attempt that keeps its doubt and gains no finality. */
  lemma LastMoves(rec: Record, a: Attempt)
    requires Chained(rec) && Shaped(rec) && rec.attempts != []
    requires SameOrigin(LastOf(rec), a) && a.doubt == LastOf(rec).doubt
    requires AttemptOk(a, |rec.attempts| - 1, rec.used) && (a.status == Settled ==> rec.ended)
    requires a.finalized ==> LastOf(rec).finalized
    ensures SameChain(rec, WithLast(rec, a))
    ensures Chained(WithLast(rec, a)) && Shaped(WithLast(rec, a))
  {
    var s := WithLast(rec, a);
    ChainStands(rec, s);
    assert forall i :: 0 <= i < |rec.attempts| ==> s.attempts[i].doubt == rec.attempts[i].doubt;
    assert SomeDoubt(rec) ==> SomeDoubt(s) by {
      if SomeDoubt(rec) {
        var i :| 0 <= i < |rec.attempts| && rec.attempts[i].doubt;
        assert s.attempts[i].doubt;
      }
    }
  }

  /** Payments put in doubt, and nothing else. */
  ghost predicate OnlyDoubts(r: Record, s: Record) {
    && s == r.(reorganized := s.reorganized, attempts := s.attempts)
    && |s.attempts| == |r.attempts|
    && (forall i :: 0 <= i < |r.attempts| ==>
          && s.attempts[i] == r.attempts[i].(doubt := s.attempts[i].doubt)
          && (r.attempts[i].doubt ==> s.attempts[i].doubt)
          && (s.attempts[i].doubt ==>
                r.attempts[i].doubt || (r.attempts[i].hash.Some? && r.attempts[i].status !in {Reserved, Signed})))
    && (s.reorganized <==> SomeDoubt(s))
  }

  lemma DoubtsStand(r: Record, s: Record)
    requires Chained(r) && Shaped(r) && OnlyDoubts(r, s)
    ensures SameChain(r, s) && Chained(s) && Shaped(s)
  {
    ChainStands(r, s);
  }

  lemma DoubtFromStands(rec: Record, k: nat)
    requires Chained(rec) && Shaped(rec) && k < |rec.attempts|
    requires rec.attempts[k].hash.Some? && rec.attempts[k].status !in {Reserved, Signed}
    ensures OnlyDoubts(rec, DoubtFrom(rec, k))
    ensures SameChain(rec, DoubtFrom(rec, k)) && Chained(DoubtFrom(rec, k)) && Shaped(DoubtFrom(rec, k))
  {
    var s := DoubtFrom(rec, k);
    assert s.attempts[k].doubt;
    DoubtsStand(rec, s);
  }

  lemma DoubtOpenStands(rec: Record)
    requires Chained(rec) && Shaped(rec)
    ensures OnlyDoubts(rec, DoubtOpen(rec))
    ensures SameChain(rec, DoubtOpen(rec)) && Chained(DoubtOpen(rec)) && Shaped(DoubtOpen(rec))
  {
    var s := DoubtOpen(rec);
    forall i | 0 <= i < |rec.attempts| && IsOpen(rec.attempts[i])
      ensures MayHaveRun(rec.attempts[i]) && s.attempts[i].doubt && rec.attempts[i] in rec.attempts
    {
      assert AttemptOk(rec.attempts[i], i, rec.used);
    }
    assert s.reorganized ==> SomeDoubt(s) by {
      if exists a <- rec.attempts :: IsOpen(a) {
        var a :| a in rec.attempts && IsOpen(a);
        var i :| 0 <= i < |rec.attempts| && rec.attempts[i] == a;
        assert s.attempts[i].doubt;
      } else if rec.reorganized {
        var i :| 0 <= i < |rec.attempts| && rec.attempts[i].doubt;
        assert s.attempts[i].doubt;
      }
    }
    DoubtsStand(rec, s);
  }

  /** Exactly the inclusions that are not final are put in doubt, and the record is flagged if there is one. */
  lemma DoubtOpenMeans(rec: Record)
    ensures |DoubtOpen(rec).attempts| == |rec.attempts|
    ensures forall i :: 0 <= i < |rec.attempts| ==>
              var a, b := rec.attempts[i], DoubtOpen(rec).attempts[i];
              b == a.(doubt := b.doubt) && (b.doubt <==> a.doubt || (a.inclusion.Some? && !a.finalized))
    ensures DoubtOpen(rec) == rec.(reorganized := DoubtOpen(rec).reorganized, attempts := DoubtOpen(rec).attempts)
    ensures DoubtOpen(rec).reorganized
       <==> rec.reorganized
            || exists i :: 0 <= i < |rec.attempts| && rec.attempts[i].inclusion.Some? && !rec.attempts[i].finalized
  {
    assert (exists a <- rec.attempts :: IsOpen(a)) <==> exists i :: 0 <= i < |rec.attempts| && IsOpen(rec.attempts[i]);
  }

  /** Exactly the payment and the later ones that were signed and neither held back nor cancelled are put in doubt. */
  lemma DoubtFromMeans(rec: Record, k: nat)
    requires k < |rec.attempts| && forall i :: 0 <= i < |rec.attempts| ==> rec.attempts[i].n == i + 1
    ensures DoubtFrom(rec, k) == rec.(reorganized := true, attempts := DoubtFrom(rec, k).attempts)
    ensures |DoubtFrom(rec, k).attempts| == |rec.attempts|
    ensures forall i :: 0 <= i < |rec.attempts| ==>
              var a, b := rec.attempts[i], DoubtFrom(rec, k).attempts[i];
              && b == a.(doubt := b.doubt)
              && (b.doubt
                  <==> || a.doubt || i == k
                       || (i > k && a.hash.Some? && a.status !in {Reserved, Signed, Cancelled}))
  {
  }

  /** An unowned record ends with the given reason and time; exactly what was reserved or signed only is cancelled. */
  lemma EndUnownedMeans(rec: Record, reason: EndReason, now: int)
    ensures
      var s := EndUnowned(rec, reason, now);
      && s == rec.(ended := true, reason := Some(reason), endedAt := Some(now), attempts := s.attempts)
      && |s.attempts| == |rec.attempts|
      && forall i :: 0 <= i < |rec.attempts| ==>
           s.attempts[i] == if rec.attempts[i].status in {Reserved, Signed} then rec.attempts[i].(status := Cancelled)
                            else rec.attempts[i]
    ensures EndOnRestart(rec, now) == if rec.ended then rec else EndUnowned(rec, Restarted, now)
  {
  }

  /** The canonical block at an open inclusion is its own: it becomes final, in order. */
  function MarkFinal(rec: Record, k: nat): Record
    requires k < |rec.attempts|
  {
    rec.(attempts := rec.attempts[k := rec.attempts[k].(finalized := true)])
  }

  lemma MarkFinalStands(rec: Record, k: nat)
    requires Chained(rec) && Shaped(rec) && k < |rec.attempts| && rec.attempts[k].inclusion.Some?
    requires forall i :: 0 <= i < k ==> rec.attempts[i].finalized || rec.attempts[i].doubt
    ensures SameChain(rec, MarkFinal(rec, k)) && Chained(MarkFinal(rec, k)) && Shaped(MarkFinal(rec, k))
  {
    var s := MarkFinal(rec, k);
    ChainStands(rec, s);
    assert forall i :: 0 <= i < |rec.attempts| ==> s.attempts[i].doubt == rec.attempts[i].doubt;
    if SomeDoubt(rec) {
      var i :| 0 <= i < |rec.attempts| && rec.attempts[i].doubt;
      assert s.attempts[i].doubt;
    }
  }

  /** A fresh reservation whose admission facts hold for this record. */
  ghost predicate MayReserve(rec: Record, a: Attempt) {
    && !rec.ended && |rec.attempts| < rec.terms.maxAttempts
    && a.status == Reserved && a.hash.None? && a.inclusion.None? && !a.finalized && !a.doubt
    && a.n == |rec.attempts| + 1 && 1 <= a.lot <= LOTS && a.reserveProtocol == Charge(a, rec.ticket)
    && ProtocolBound(rec.attempts, rec.ticket) + Charge(a, rec.ticket) <= rec.terms.maxSpend
    && CountStatus(rec.attempts, Minted) < rec.terms.maxLots
    && CountStatus(rec.attempts, LostRace) <= Retries(rec.terms)
    && (rec.attempts != [] ==>
          var p := LastOf(rec);
          && AdmitsSuccessor(p.status) && p.hash.Some? && p.inclusion.Some?
          && p.inclusion.value.height <= a.birth.height && p.birth.height < a.birth.height
          && a.nonce == p.nonce + 1
          && a.held == rec.attempts[0].held + rec.terms.lotAmount * CountStatus(rec.attempts, Minted))
  }

  function WithReservation(rec: Record, a: Attempt): Record {
    rec.(attempts := rec.attempts + [a], used := rec.used + 1)
  }

  lemma ReservationIsAdmitted(rec: Record, a: Attempt)
    requires MayReserve(rec, a)
    ensures Admitted(WithReservation(rec, a), |rec.attempts|)
  {
    var n := |rec.attempts|;
    assert WithReservation(rec, a).attempts[..n] == rec.attempts;
    var minted := CountStatus(rec.attempts, Minted);
    if n == 0 {
      assert rec.terms.lotAmount * minted == 0;
    }
  }

  lemma ReservationKeepsAdmitted(rec: Record, a: Attempt, k: nat)
    requires k < |rec.attempts| && Admitted(rec, k)
    ensures Admitted(WithReservation(rec, a), k)
  {
    assert WithReservation(rec, a).attempts[..k] == rec.attempts[..k];
  }

  lemma ReservationFollows(rec: Record, a: Attempt, i: nat)
    requires MayReserve(rec, a) && i < |rec.attempts| && (i < |rec.attempts| - 1 ==> Followed(rec, i))
    ensures Followed(WithReservation(rec, a), i)
  {
  }

  lemma ReservationChains(rec: Record, a: Attempt)
    requires Chained(rec) && MayReserve(rec, a)
    ensures Chained(WithReservation(rec, a))
  {
    var s, n := WithReservation(rec, a), |rec.attempts|;
    ReservationIsAdmitted(rec, a);
    forall k | 0 <= k <= n ensures Admitted(s, k) {
      if k < n {
        ReservationKeepsAdmitted(rec, a, k);
      }
    }
    forall i | 0 <= i < n ensures Followed(s, i) {
      ReservationFollows(rec, a, i);
    }
  }

  lemma ReservationShapes(rec: Record, a: Attempt)
    requires Shaped(rec) && MayReserve(rec, a) && rec.used == |rec.attempts|
    ensures Shaped(WithReservation(rec, a))
  {
    var s := WithReservation(rec, a);
    var n := |rec.attempts|;
    forall i | 0 <= i <= n ensures AttemptOk(s.attempts[i], i, s.used) {
      assert i < n ==> AttemptOk(rec.attempts[i], i, rec.used);
    }
    if SomeDoubt(rec) {
      var i :| 0 <= i < n && rec.attempts[i].doubt;
      assert s.attempts[i].doubt;
    }
  }

  /** A record that ends, whoever ends it, with attempts never released cancelled. */
  lemma EndStands(rec: Record, reason: EndReason, now: int)
    requires Chained(rec) && Shaped(rec)
    ensures SameChain(rec, EndUnowned(rec, reason, now))
    ensures Chained(EndUnowned(rec, reason, now)) && Shaped(EndUnowned(rec, reason, now))
  {
    var s := EndUnowned(rec, reason, now);
    forall i | 0 <= i < |rec.attempts| - 1 ensures s.attempts[i] == rec.attempts[i] {
      assert Followed(rec, i);
    }
    ChainStands(rec, s);
    assert forall i :: 0 <= i < |rec.attempts| ==> s.attempts[i].doubt == rec.attempts[i].doubt;
    if SomeDoubt(rec) {
      var i :| 0 <= i < |rec.attempts| && rec.attempts[i].doubt;
      assert s.attempts[i].doubt;
    }
    forall i | 0 <= i < |rec.attempts| ensures AttemptOk(s.attempts[i], i, s.used) {
      assert AttemptOk(rec.attempts[i], i, rec.used);
    }
  }

  // ---- The snapshot stays within the terms ----------------------------------------------------------

  /** The last attempt adds at most its charge: it is spent, or reserved, or neither. */
  lemma LastCountsOnce(attempts: seq<Attempt>, ticket: nat, final: set<Hash>)
    requires attempts != []
    requires attempts[|attempts| - 1].reserveProtocol == Charge(attempts[|attempts| - 1], ticket)
    ensures
      var before := attempts[..|attempts| - 1];
      ProtocolSpent(attempts, ticket) + ProtocolReserved(Verified(attempts), final)
      <= ProtocolSpent(before, ticket) + ProtocolReserved(Verified(before), final)
         + Charge(attempts[|attempts| - 1], ticket)
    ensures CountStatus(attempts, Minted) <= CountStatus(attempts[..|attempts| - 1], Minted) + 1
  {
    VerifiedWithLast(attempts);
  }

  /** Spends and reserves of payments not in doubt never exceed the cap: `Room` is never negative. */
  lemma SpendsStayWithinCap(rec: Record, final: set<Hash>)
    requires Chained(rec)
    ensures ProtocolSpent(rec.attempts, rec.ticket) + ProtocolReserved(Verified(rec.attempts), final)
         <= rec.terms.maxSpend
    ensures CountStatus(rec.attempts, Minted) <= rec.terms.maxLots
  {
    if rec.attempts != [] {
      var k := |rec.attempts| - 1;
      var before := rec.attempts[..k];
      assert Admitted(rec, k);
      forall i | 0 <= i < k ensures AdmitsSuccessor(before[i].status) {
        assert Followed(rec, i);
      }
      AdmittingPrefix(before, rec.ticket, final);
      BoundDominates(before, rec.ticket, MintedChoice(before));
      LastCountsOnce(rec.attempts, rec.ticket, final);
    }
  }

  /** Every snapshot of such a record satisfies the readers' rules, whatever is final in history. */
  lemma SnapshotStaysWithinTerms(rec: Record, final: set<Hash>)
    requires Chained(rec) && AttemptsOk(rec) && (!rec.reorganized ==> !SomeDoubt(rec))
    ensures SnapshotParses(rec.terms, SnapshotOf(rec, final))
    ensures Room(rec, final) >= 0
  {
    SpendsStayWithinCap(rec, final);
    CountsAreDisjoint(rec.attempts, final);
    DoubtedPart(rec.attempts, final);
    PendingIsFollowed(rec.attempts, final);
    LastIsNotFollowed(rec.attempts, final);
    if !rec.reorganized {
      DoubtsNeedAFlag(rec.attempts, final);
    }
  }

  lemma ChainPasses(rec: Record)
    requires Chained(rec)
    ensures ChainOk(rec) && RacesOk(rec)
  {
    forall i | 1 <= i < |rec.attempts| ensures Succeeds(rec.attempts[i - 1], rec.attempts[i]) {
      assert Followed(rec, i - 1);
    }
    forall i | 1 <= i < |rec.attempts| ensures CountStatus(rec.attempts[..i], LostRace) <= Retries(rec.terms) {
      assert Admitted(rec, i);
    }
  }

  lemma UndoubtedStands(rec: Record)
    requires Chained(rec) && AttemptsOk(rec)
    ensures Chained(Undoubted(rec)) && AttemptsOk(Undoubted(rec)) && !SomeDoubt(Undoubted(rec))
  {
    var plain := Undoubted(rec);
    assert SameChain(rec, plain);
    ChainStands(rec, plain);
    forall i | 0 <= i < |rec.attempts| ensures AttemptOk(plain.attempts[i], i, plain.used) {
      assert AttemptOk(rec.attempts[i], i, rec.used);
    }
  }

  /** A sound record always passes the validator, with the lost-race rule while it runs. */
  lemma SoundRecordPasses(rec: Record, lines: seq<Line>)
    requires Sound(rec, lines)
    ensures RecordOk(rec, lines, !rec.ended)
  {
    SnapshotStaysWithinTerms(rec, {});
    UndoubtedStands(rec);
    SnapshotStaysWithinTerms(Undoubted(rec), {});
    ChainPasses(rec);
    if rec.reorganized {
      var i :| 0 <= i < |rec.attempts| && rec.attempts[i].doubt;
      assert rec.attempts[i] in rec.attempts;
    }
  }

  // ---- History lines --------------------------------------------------------------------------------

  ghost predicate SameKey(l: Line, m: Line) {
    m == l.(status := m.status, height := m.height, nativeSuccess := m.nativeSuccess, accepted := m.accepted)
  }

  /** History rewrote what it reports about payments, never which payments it holds. */
  ghost predicate SameKeys(lines: seq<Line>, after: seq<Line>) {
    |after| == |lines| && forall i :: 0 <= i < |lines| ==> SameKey(lines[i], after[i])
  }

  lemma {:induction false} KeysFind(lines: seq<Line>, after: seq<Line>, hash: Hash)
    requires SameKeys(lines, after)
    ensures FindLine(after, hash) == FindLine(lines, hash)
    ensures CountLines(after, hash) == CountLines(lines, hash)
  {
    if lines != [] {
      KeysFind(lines[1..], after[1..], hash);
    }
  }

  lemma StatusKeepsKeys(lines: seq<Line>, hash: Hash, status: JournalStatus)
    ensures SameKeys(lines, SetStatus(lines, hash, status))
  {
  }

  lemma KeysKeepJournal(rec: Record, lines: seq<Line>, after: seq<Line>)
    requires Journaled(rec, lines) && SameKeys(lines, after)
    ensures Journaled(rec, after)
  {
    forall i | 0 <= i < |rec.attempts| && rec.attempts[i].hash.Some?
      ensures OneMatchingLine(after, rec.attempts[i], rec)
    {
      KeysFind(lines, after, rec.attempts[i].hash.value);
      assert OneMatchingLine(lines, rec.attempts[i], rec);
    }
  }

  lemma {:induction false} NoSuchLine(lines: seq<Line>, hash: Hash)
    ensures CountLines(lines, hash) == 0 <==> !HasLine(lines, hash)
    ensures !HasLine(lines, hash) <==> forall l <- lines :: l.hash != hash
  {
    if lines != [] {
      NoSuchLine(lines[1..], hash);
      assert lines == [lines[0]] + lines[1..];
    }
  }

  /** Adding the line of a new transaction hash in front keeps every other payment's line. */
  lemma NewLineKeepsJournal(rec: Record, lines: seq<Line>, l: Line)
    requires Journaled(rec, lines) && !HasLine(lines, l.hash)
    ensures Journaled(rec, [l] + lines)
  {
    assert ([l] + lines)[1..] == lines;
    forall i | 0 <= i < |rec.attempts| && rec.attempts[i].hash.Some?
      ensures OneMatchingLine([l] + lines, rec.attempts[i], rec)
    {
      assert OneMatchingLine(lines, rec.attempts[i], rec);
    }
  }

  /** Same hashes, same lines: the journal describes the changed record too. */
  lemma SameHashesKeepJournal(r: Record, s: Record, lines: seq<Line>)
    requires Journaled(r, lines) && SameChain(r, s)
    requires r.attempts != [] ==> LastOf(s).hash == LastOf(r).hash
    ensures Journaled(s, lines)
  {
    forall i | 0 <= i < |s.attempts| && s.attempts[i].hash.Some?
      ensures OneMatchingLine(lines, s.attempts[i], s)
    {
      assert OneMatchingLine(lines, r.attempts[i], r);
    }
  }
}
