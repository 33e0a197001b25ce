/** The stored ledger: doubt, the validator of stored records, restart and history resolution. */
module StoredLedger {
  import opened MintTypes
  import opened SpendAccounting
  import opened SessionSnapshots

  // ---- History lines --------------------------------------------------------------------------------

  /** Index of the first line with `hash`, or the number of lines. */
  function FindLine(lines: seq<Line>, hash: Hash): (i: nat)
    ensures i <= |lines|
    ensures i < |lines| ==> lines[i].hash == hash
    ensures forall j :: 0 <= j < i ==> lines[j].hash != hash
  {
    if lines == [] || lines[0].hash == hash then 0 else 1 + FindLine(lines[1..], hash)
  }

  predicate HasLine(lines: seq<Line>, hash: Hash) {
    FindLine(lines, hash) < |lines|
  }

  function LineOf(lines: seq<Line>, hash: Hash): (l: Line)
    requires HasLine(lines, hash)
    ensures l in lines && l.hash == hash
  {
    lines[FindLine(lines, hash)]
  }

  function CountLines(lines: seq<Line>, hash: Hash): nat {
    if lines == [] then 0
    else (if lines[0].hash == hash then 1 else 0) + CountLines(lines[1..], hash)
  }

  function SetStatus(lines: seq<Line>, hash: Hash, status: JournalStatus): seq<Line> {
    var i := FindLine(lines, hash);
    if i < |lines| then lines[i := lines[i].(status := status)] else lines
  }

  /** `requireSettledAccount` refuses: an operation of this account is not final in history. */
  predicate Gates(lines: seq<Line>, owner: Id, genesis: Id) {
    exists l <- lines :: l.owner == owner && l.genesis == genesis && !IsFinal(l.status)
  }

  // ---- Doubt ----------------------------------------------------------------------------------------

  function Doubted(a: Attempt): Attempt {
    a.(doubt := true)
  }

  /** Whether putting `from` in doubt puts `a` in doubt too. */
  predicate InDoubtWith(a: Attempt, from: Attempt) {
    a.n == from.n || (a.n > from.n && MayHaveRun(a))
  }

  function DoubtFrom(rec: Record, k: nat): Record
    requires k < |rec.attempts|
  {
    rec.(reorganized := true,
         attempts := seq(|rec.attempts|, i requires 0 <= i < |rec.attempts| =>
           if InDoubtWith(rec.attempts[i], rec.attempts[k]) then Doubted(rec.attempts[i]) else rec.attempts[i]))
  }

  predicate IsOpen(a: Attempt) {
    a.inclusion.Some? && !a.finalized
  }

  /** Doubts every attempt with an inclusion that is not final, and flags the record if there is one. */
  function DoubtOpen(rec: Record): Record {
    rec.(reorganized := rec.reorganized || exists a <- rec.attempts :: IsOpen(a),
         attempts := seq(|rec.attempts|, i requires 0 <= i < |rec.attempts| =>
           if IsOpen(rec.attempts[i]) then Doubted(rec.attempts[i]) else rec.attempts[i]))
  }

  // ---- The validator --------------------------------------------------------------------------------

  predicate AttemptOk(a: Attempt, i: nat, used: nat) {
    && a.n == i + 1 && a.n <= used
    && 1 <= a.lot <= LOTS
    && (a.hash.None? ==> a.status == Reserved || a.status == Cancelled)
    && (CarriesInclusion(a.status) ==> a.inclusion.Some?)
    && (!CarriesInclusion(a.status) && a.status != Settled ==> a.inclusion.None?)
    && (a.inclusion.None? ==> !a.finalized)
    && (a.inclusion.Some? ==> InWindow(a, a.inclusion.value))
    && (a.doubt ==> a.hash.Some? && a.status != Reserved && a.status != Signed)
  }

  predicate LineMatches(l: Line, a: Attempt, rec: Record) {
    l.owner == rec.owner && l.genesis == rec.genesis && l.nonce == a.nonce && l.session == Some(rec.id)
  }

  predicate OneMatchingLine(lines: seq<Line>, a: Attempt, rec: Record) {
    a.hash.Some? ==>
      && CountLines(lines, a.hash.value) == 1
      && HasLine(lines, a.hash.value)
      && LineMatches(LineOf(lines, a.hash.value), a, rec)
  }

  predicate Succeeds(before: Attempt, a: Attempt) {
    a.birth.height > before.birth.height && a.nonce == before.nonce + 1 && AdmitsSuccessor(before.status)
  }

  function Undoubted(rec: Record): Record {
    rec.(reorganized := false,
         attempts := seq(|rec.attempts|, i requires 0 <= i < |rec.attempts| => rec.attempts[i].(doubt := false)))
  }

  predicate HeaderOk(r: Record) {
    && TermsOk(r.terms)
    && (r.ended <==> r.reason.Some?) && (r.ended <==> r.endedAt.Some?)
    && r.used <= r.terms.maxAttempts && |r.attempts| <= r.used
    && (r.reorganized <==> exists a <- r.attempts :: a.doubt)
  }

  predicate AttemptsOk(r: Record) {
    forall i :: 0 <= i < |r.attempts| ==> AttemptOk(r.attempts[i], i, r.used)
  }

  predicate ChainOk(r: Record) {
    forall i :: 1 <= i < |r.attempts| ==> Succeeds(r.attempts[i - 1], r.attempts[i])
  }

  /** Lost races stay within the retries the terms allow wherever another payment follows. */
  predicate RacesOk(r: Record) {
    forall i :: 1 <= i < |r.attempts| ==> CountStatus(r.attempts[..i], LostRace) <= Retries(r.terms)
  }

  predicate HistoryOk(r: Record, lines: seq<Line>) {
    forall a <- r.attempts :: (a.status == Settled ==> r.ended) && OneMatchingLine(lines, a, r)
  }

  /** The rules a stored record must satisfy. */
  predicate RecordOk(r: Record, lines: seq<Line>, raceRule: bool) {
    && HeaderOk(r) && AttemptsOk(r) && ChainOk(r) && (raceRule ==> RacesOk(r)) && HistoryOk(r, lines)
    && SnapshotParses(r.terms, SnapshotOf(r, {}))
    && SnapshotParses(r.terms, SnapshotOf(Undoubted(r), {}))
  }

  /** `checkRecord`: the first broken rule refuses the record. */
  method CheckRecord(r: Record, lines: seq<Line>, raceRule: bool) returns (ok: bool)
    ensures ok <==> RecordOk(r, lines, raceRule)
  {
    if !HeaderOk(r) || !AttemptsOk(r) {
      return false;
    }
    ok := CheckSuccession(r, raceRule);
    if ok {
      ok := CheckHistory(r, lines);
    }
    ok := ok && SnapshotParses(r.terms, SnapshotOf(r, {})) && SnapshotParses(r.terms, SnapshotOf(Undoubted(r), {}));
  }

  /** Every reservation follows a lot or a lost race, and lost races stay within the retries. */
  method CheckSuccession(r: Record, raceRule: bool) returns (ok: bool)
    ensures ok <==> ChainOk(r) && (raceRule ==> RacesOk(r))
  {
    var lostRaces: nat := 0;
    var i := 1;
    while i < |r.attempts|
      invariant 1 <= i && (|r.attempts| > 0 ==> i <= |r.attempts|)
      invariant |r.attempts| > 0 ==> lostRaces == CountStatus(r.attempts[..i - 1], LostRace)
      invariant forall j :: 1 <= j < i && j < |r.attempts| ==> Succeeds(r.attempts[j - 1], r.attempts[j])
      invariant raceRule ==>
                  forall j :: 1 <= j < i && j < |r.attempts| ==>
                    CountStatus(r.attempts[..j], LostRace) <= Retries(r.terms)
    {
      if !Succeeds(r.attempts[i - 1], r.attempts[i]) {
        return false;
      }
      assert r.attempts[..i][..i - 1] == r.attempts[..i - 1];
      if r.attempts[i - 1].status == LostRace {
        lostRaces := lostRaces + 1;
      }
      if raceRule && lostRaces > Retries(r.terms) {
        return false;
      }
      i := i + 1;
    }
    return true;
  }

  /** Each hash has exactly one history line, and it is this payment's. */
  method CheckHistory(r: Record, lines: seq<Line>) returns (ok: bool)
    ensures ok <==> HistoryOk(r, lines)
  {
    for i := 0 to |r.attempts|
      invariant forall j :: 0 <= j < i ==>
                  (r.attempts[j].status == Settled ==> r.ended) && OneMatchingLine(lines, r.attempts[j], r)
    {
      var a := r.attempts[i];
      if (a.status == Settled && !r.ended) || !OneMatchingLine(lines, a, r) {
        return false;
      }
    }
    return true;
  }

  // ---- Records no controller owns -------------------------------------------------------------------

  function EndedAttempt(a: Attempt): Attempt {
    if a.status == Reserved || a.status == Signed then a.(status := Cancelled) else a
  }

  function EndUnowned(rec: Record, reason: EndReason, now: int): Record {
    rec.(ended := true, reason := Some(reason), endedAt := Some(now),
         attempts := seq(|rec.attempts|, i requires 0 <= i < |rec.attempts| => EndedAttempt(rec.attempts[i])))
  }

  /** The record as a restarted wallet loads it: ended, with unreleased attempts cancelled. */
  function EndOnRestart(rec: Record, now: int): Record {
    if rec.ended then rec else EndUnowned(rec, Restarted, now)
  }

  /** History's own restart rule. */
  function RestartLine(l: Line): Line {
    if l.status == SignedNotSubmitted then l.(status := CancelledBeforeBroadcast) else l
  }

  function RestartLines(lines: seq<Line>): seq<Line> {
    seq(|lines|, i requires 0 <= i < |lines| => RestartLine(lines[i]))
  }

  /** History cancels the lines of signed attempts of a record whose end was never saved. */
  function CancelStaleLines(attempts: seq<Attempt>, lines: seq<Line>): seq<Line> {
    if attempts == [] then lines
    else
      var k := |attempts| - 1;
      var before := CancelStaleLines(attempts[..k], lines);
      if attempts[k].status == Signed && attempts[k].hash.Some? && HasLine(before, attempts[k].hash.value)
         && LineOf(before, attempts[k].hash.value).status == SignedNotSubmitted
      then SetStatus(before, attempts[k].hash.value, CancelledBeforeBroadcast)
      else before
  }

  // ---- History resolution ---------------------------------------------------------------------------

  /** History's final entry tells another story than the ledger's verdict. */
  predicate Contradicts(a: Attempt, l: Line) {
    IsFinal(l.status) &&
    var ran := l.status == HistoryFinalized;
    if a.status in {Cancelled, Dead, Expired, Replaced} then ran
    else if a.inclusion.None? || a.status == Settled then false
    else if !ran then true
    else if l.height.Some? && l.height.value != a.inclusion.value.height then true
    else if l.nativeSuccess.Some? && l.nativeSuccess.value != (a.status == Minted || a.status == Anomaly) then true
    else l.accepted.Some? && l.accepted.value != (a.status == Minted)
  }

  function ResolvedAttempt(a: Attempt, l: Line): Attempt {
    if l.status == HistoryFinalized then a.(status := Settled)
    else a.(status := if l.status == HistoryExpired then Expired else Cancelled, inclusion := None, finalized := false)
  }

  /** What `resolveFromJournal` does for attempt `k` of an ended record. */
  function ResolveAt(rec: Record, lines: seq<Line>, k: nat): Record
    requires k < |rec.attempts|
  {
    var a := rec.attempts[k];
    if a.hash.None? || !HasLine(lines, a.hash.value) then rec
    else
      var l := LineOf(lines, a.hash.value);
      if !IsUnresolved(a) then
        (if !a.doubt && Contradicts(a, l) then DoubtFrom(rec, k) else rec)
      else if !IsFinal(l.status) then rec
      else
        var r := if NeverRan(l.status) && a.inclusion.Some? then DoubtFrom(rec, k) else rec;
        r.(attempts := r.attempts[k := ResolvedAttempt(r.attempts[k], l)])
  }

  function ResolveUpto(rec: Record, lines: seq<Line>, n: nat): (r: Record)
    requires n <= |rec.attempts|
    ensures |r.attempts| == |rec.attempts|
  {
    if n == 0 then rec else ResolveAt(ResolveUpto(rec, lines, n - 1), lines, n - 1)
  }

  /** The resolved record; one that still runs is returned as it is. */
  function Resolve(rec: Record, lines: seq<Line>): Record {
    if rec.ended then ResolveUpto(rec, lines, |rec.attempts|) else rec
  }

  /** Every payment of an ended record is final in history. */
  predicate SettledRecord(rec: Record, lines: seq<Line>) {
    rec.ended &&
    forall a <- rec.attempts :: a.hash.Some? ==> exists l <- lines :: l.hash == a.hash.value && IsFinal(l.status)
  }

  // ---- The wallet's copy of the ledger --------------------------------------------------------------

  const MAX_SESSION_RECORDS: nat := 8

  /** The ledger and the history the wallet keeps in memory, updated in place. */
  class Ledger {
    var sessions: seq<Record>
    var transactions: seq<Line>

    constructor (sessions: seq<Record>, transactions: seq<Line>)
      ensures this.sessions == sessions && this.transactions == transactions
    {
      this.sessions, this.transactions := sessions, transactions;
    }

    /** `doubtFrom` on session `s`, in place. */
    method DoubtFromInPlace(s: nat, k: nat)
      requires s < |sessions| && k < |sessions[s].attempts|
      modifies this`sessions
      ensures sessions == old(sessions)[s := DoubtFrom(old(sessions)[s], k)]
    {
      var from := sessions[s].attempts[k];
      var attempts := sessions[s].attempts;
      for i := 0 to |attempts|
        invariant |attempts| == |old(sessions)[s].attempts| && sessions == old(sessions)
        invariant forall j :: 0 <= j < i ==> attempts[j] == DoubtFrom(old(sessions)[s], k).attempts[j]
        invariant forall j :: i <= j < |attempts| ==> attempts[j] == old(sessions)[s].attempts[j]
      {
        if InDoubtWith(attempts[i], from) {
          attempts := attempts[i := Doubted(attempts[i])];
        }
      }
      assert attempts == DoubtFrom(sessions[s], k).attempts;
      sessions := sessions[s := sessions[s].(reorganized := true, attempts := attempts)];
    }

    /** `endOnRestart`: every running record ends; returns whether one did. */
    method EndAllOnRestart(now: int) returns (changed: bool)
      modifies this`sessions
      ensures |sessions| == |old(sessions)|
      ensures forall i :: 0 <= i < |sessions| ==> sessions[i] == EndOnRestart(old(sessions)[i], now)
      ensures changed <==> exists r <- old(sessions) :: !r.ended
    {
      changed := false;
      for i := 0 to |sessions|
        invariant |sessions| == |old(sessions)|
        invariant forall j :: 0 <= j < i ==> sessions[j] == EndOnRestart(old(sessions)[j], now)
        invariant forall j :: i <= j < |sessions| ==> sessions[j] == old(sessions)[j]
        invariant changed <==> exists j :: 0 <= j < i && !old(sessions)[j].ended
      {
        if !sessions[i].ended {
          sessions := sessions[i := EndUnowned(sessions[i], Restarted, now)];
          changed := true;
        }
      }
    }

    /** `endStale`: ends what still runs of one account, and cancels the entries it had only signed. */
    method EndStale(owner: Id, genesis: Id, now: int)
      modifies this
      ensures |sessions| == |old(sessions)|
      ensures forall i :: 0 <= i < |sessions| ==>
                sessions[i] == if IsStale(old(sessions)[i], owner, genesis)
                               then EndUnowned(old(sessions)[i], Unavailable, now) else old(sessions)[i]
      ensures transactions == StaleLines(old(sessions), old(transactions), owner, genesis)
    {
      for i := 0 to |sessions|
        invariant |sessions| == |old(sessions)|
        invariant forall j :: 0 <= j < i ==>
                    sessions[j] == if IsStale(old(sessions)[j], owner, genesis)
                                   then EndUnowned(old(sessions)[j], Unavailable, now) else old(sessions)[j]
        invariant forall j :: i <= j < |sessions| ==> sessions[j] == old(sessions)[j]
        invariant transactions == StaleLines(old(sessions)[..i], old(transactions), owner, genesis)
      {
        assert old(sessions)[..i + 1][..i] == old(sessions)[..i];
        if IsStale(sessions[i], owner, genesis) {
          var attempts := sessions[i].attempts;
          label Round:
          ghost var before := transactions;
          for k := 0 to |attempts|
            invariant transactions == CancelStaleLines(attempts[..k], before)
            invariant sessions == old@Round(sessions)
          {
            assert attempts[..k + 1][..k] == attempts[..k];
            var a := attempts[k];
            if a.status == Signed && a.hash.Some? && HasLine(transactions, a.hash.value)
               && LineOf(transactions, a.hash.value).status == SignedNotSubmitted {
              transactions := SetStatus(transactions, a.hash.value, CancelledBeforeBroadcast);
            }
          }
          assert attempts[..|attempts|] == attempts;
          sessions := sessions[i := EndUnowned(sessions[i], Unavailable, now)];
        }
      }
      assert old(sessions)[..|sessions|] == old(sessions);
    }

    /** `resolveFromJournal`: history's final word on every ended record. */
    method ResolveFromJournal()
      modifies this`sessions
      ensures |sessions| == |old(sessions)|
      ensures forall i :: 0 <= i < |sessions| ==> sessions[i] == Resolve(old(sessions)[i], transactions)
    {
      for i := 0 to |sessions|
        invariant |sessions| == |old(sessions)|
        invariant forall j :: 0 <= j < i ==> sessions[j] == Resolve(old(sessions)[j], transactions)
        invariant forall j :: i <= j < |sessions| ==> sessions[j] == old(sessions)[j]
      {
        if sessions[i].ended {
          for k := 0 to |sessions[i].attempts|
            invariant |sessions| == |old(sessions)|
            invariant sessions[i] == ResolveUpto(old(sessions)[i], transactions, k)
            invariant forall j :: 0 <= j < |sessions| && j != i ==>
                        sessions[j] == if j < i then Resolve(old(sessions)[j], transactions) else old(sessions)[j]
          {
            var rec := sessions[i];
            var a := rec.attempts[k];
            if a.hash.Some? && HasLine(transactions, a.hash.value) {
              var l := LineOf(transactions, a.hash.value);
              if !IsUnresolved(a) {
                if !a.doubt && Contradicts(a, l) {
                  DoubtFromInPlace(i, k);
                }
              } else if IsFinal(l.status) {
                if NeverRan(l.status) && a.inclusion.Some? {
                  DoubtFromInPlace(i, k);
                }
                rec := sessions[i];
                sessions := sessions[i := rec.(attempts := rec.attempts[k := ResolvedAttempt(rec.attempts[k], l)])];
              }
            }
          }
        }
      }
    }

    /** `pruneSettled`: makes room by removing the first settled record again and again. */
    method PruneSettled() returns (free: nat)
      modifies this`sessions
      ensures sessions == Pruned(old(sessions), transactions)
      ensures free == if |sessions| < MAX_SESSION_RECORDS then MAX_SESSION_RECORDS - |sessions| else 0
    {
      while |sessions| >= MAX_SESSION_RECORDS
        invariant Pruned(sessions, transactions) == Pruned(old(sessions), transactions)
        decreases |sessions|
      {
        var i := FirstSettled(sessions, transactions);
        if i == |sessions| {
          break;
        }
        sessions := sessions[..i] + sessions[i + 1..];
      }
      free := if |sessions| < MAX_SESSION_RECORDS then MAX_SESSION_RECORDS - |sessions| else 0;
    }
  }

  predicate IsStale(rec: Record, owner: Id, genesis: Id) {
    !rec.ended && rec.owner == owner && rec.genesis == genesis
  }

  function StaleLines(sessions: seq<Record>, lines: seq<Line>, owner: Id, genesis: Id): seq<Line> {
    if sessions == [] then lines
    else
      var k := |sessions| - 1;
      var before := StaleLines(sessions[..k], lines, owner, genesis);
      if IsStale(sessions[k], owner, genesis) then CancelStaleLines(sessions[k].attempts, before) else before
  }

  function FirstSettled(sessions: seq<Record>, lines: seq<Line>): (i: nat)
    ensures i <= |sessions|
    ensures i < |sessions| ==> SettledRecord(sessions[i], lines)
    ensures forall j :: 0 <= j < i ==> !SettledRecord(sessions[j], lines)
  {
    if sessions == [] || SettledRecord(sessions[0], lines) then 0 else 1 + FirstSettled(sessions[1..], lines)
  }

  function Pruned(sessions: seq<Record>, lines: seq<Line>): seq<Record>
    decreases |sessions|
  {
    var i := FirstSettled(sessions, lines);
    if |sessions| < MAX_SESSION_RECORDS || i == |sessions| then sessions
    else Pruned(sessions[..i] + sessions[i + 1..], lines)
  }
}
