/** What one round of finality reads does to a record, whatever the reads answer. */
module FinalityChecks {
  import opened MintTypes
  import opened StoredLedger
  import opened LedgerSoundness
  import opened HistoryResolution
  import opened SessionMachine

  /** The canonical block read for attempt `k`, if the node named one. */
  type Answers = nat -> Option<Hash>

  /** An inclusion the round asks about. */
  predicate Asked(a: Attempt, final: nat) {
    a.inclusion.Some? && a.inclusion.value.height <= final && !a.finalized && !a.doubt
  }

  /** Every inclusion up to the final block is final or in doubt. */
  predicate NothingToAsk(rec: Record, final: nat) {
    forall a <- rec.attempts :: !Asked(a, final)
  }

  predicate Confirmed(a: Attempt, canonical: Option<Hash>) {
    a.inclusion.Some? && canonical == Some(a.inclusion.value.hash)
  }

  /** The round in the order of the payments: an inclusion put in doubt by an earlier one is not asked about. */
  function RefreshUpto(rec: Record, final: nat, answers: Answers, n: nat): (r: Record)
    requires n <= |rec.attempts|
    ensures |r.attempts| == |rec.attempts|
  {
    if n == 0 then rec
    else RefreshAttempt(RefreshUpto(rec, final, answers, n - 1), n - 1, final, answers(n - 1))
  }

  lemma NextRefreshed(rec: Record, final: nat, answers: Answers, n: nat)
    requires n < |rec.attempts|
    ensures RefreshUpto(rec, final, answers, n + 1)
         == RefreshAttempt(RefreshUpto(rec, final, answers, n), n, final, answers(n))
  {
  }

  /** Another block than the recorded one is canonical at the inclusion of attempt `k`. */
  ghost predicate Refuted(rec: Record, final: nat, answers: Answers, k: nat)
    requires k < |rec.attempts|
  {
    Asked(rec.attempts[k], final) && !Confirmed(rec.attempts[k], answers(k))
  }

  ghost predicate InDoubt(rec: Record, final: nat, answers: Answers, n: nat, j: nat)
    requires n <= |rec.attempts| && j < |rec.attempts|
  {
    rec.attempts[j].doubt || exists k :: 0 <= k < n && Refuted(rec, final, answers, k) && Reaches(rec, k, j)
  }

  ghost predicate Finalized(rec: Record, final: nat, answers: Answers, n: nat, j: nat)
    requires n <= |rec.attempts| && j < |rec.attempts|
  {
    var a := rec.attempts[j];
    a.finalized || (j < n && Asked(a, final) && Confirmed(a, answers(j)) && !InDoubt(rec, final, answers, n, j))
  }

  /** Attempt `j` after the first `n` checks. */
  ghost predicate CheckedAs(rec: Record, final: nat, answers: Answers, n: nat, j: nat, b: Attempt)
    requires n <= |rec.attempts| && j < |rec.attempts|
  {
    && b == rec.attempts[j].(finalized := b.finalized, doubt := b.doubt)
    && (b.doubt <==> InDoubt(rec, final, answers, n, j))
    && (b.finalized <==> Finalized(rec, final, answers, n, j))
  }

  lemma OneCheck(r: Record, final: nat, canonical: Option<Hash>, k: nat, j: nat)
    requires Numbered(r) && k < |r.attempts| && j < |r.attempts|
    ensures
      var b := RefreshAttempt(r, k, final, canonical).attempts[j];
      var refuted := Asked(r.attempts[k], final) && !Confirmed(r.attempts[k], canonical);
      && b == r.attempts[j].(finalized := b.finalized, doubt := b.doubt)
      && (b.doubt <==> r.attempts[j].doubt || (refuted && Reaches(r, k, j)))
      && (b.finalized <==> r.attempts[j].finalized
                           || (j == k && Asked(r.attempts[k], final) && Confirmed(r.attempts[k], canonical)))
  {
  }

  /** A payment in a block may have run, so an earlier doubt that reaches it reaches all it reaches. */
  lemma ReachesOn(rec: Record, e: nat, k: nat, j: nat)
    requires AttemptsOk(rec) && e < k < |rec.attempts| && j < |rec.attempts|
    requires Reaches(rec, e, k) && Reaches(rec, k, j) && rec.attempts[k].inclusion.Some?
    ensures Reaches(rec, e, j)
  {
    assert AttemptOk(rec.attempts[k], k, rec.used);
  }

  lemma OneMore(rec: Record, final: nat, answers: Answers, n: nat, r: Record, j: nat)
    requires AttemptsOk(rec) && Numbered(r) && n < |rec.attempts| == |r.attempts| && j < |rec.attempts|
    requires CheckedAs(rec, final, answers, n, j, r.attempts[j])
    requires CheckedAs(rec, final, answers, n, n, r.attempts[n])
    ensures CheckedAs(rec, final, answers, n + 1, j, RefreshAttempt(r, n, final, answers(n)).attempts[j])
  {
    OneCheck(r, final, answers(n), n, j);
    assert Reaches(r, n, j) <==> Reaches(rec, n, j);
    assert InDoubt(rec, final, answers, n + 1, j)
      <==> InDoubt(rec, final, answers, n, j) || (Refuted(rec, final, answers, n) && Reaches(rec, n, j));
    if Refuted(rec, final, answers, n) && Reaches(rec, n, j) && r.attempts[n].doubt && !rec.attempts[n].doubt {
      var e :| 0 <= e < n && Refuted(rec, final, answers, e) && Reaches(rec, e, n);
      ReachesOn(rec, e, n, j);
    }
  }

  ghost predicate AllChecked(rec: Record, final: nat, answers: Answers, n: nat)
    requires n <= |rec.attempts|
  {
    var r := RefreshUpto(rec, final, answers, n);
    Numbered(r) && forall j :: 0 <= j < |rec.attempts| ==> CheckedAs(rec, final, answers, n, j, r.attempts[j])
  }

  lemma NextCheck(rec: Record, final: nat, answers: Answers, n: nat)
    requires AttemptsOk(rec) && Numbered(rec) && n < |rec.attempts| && AllChecked(rec, final, answers, n)
    ensures AllChecked(rec, final, answers, n + 1)
  {
    var r, s := RefreshUpto(rec, final, answers, n), RefreshUpto(rec, final, answers, n + 1);
    forall j | 0 <= j < |rec.attempts| ensures CheckedAs(rec, final, answers, n + 1, j, s.attempts[j]) {
      OneMore(rec, final, answers, n, r, j);
    }
  }

  lemma {:induction false} ChecksUpto(rec: Record, final: nat, answers: Answers, n: nat)
    requires AttemptsOk(rec) && Numbered(rec) && n <= |rec.attempts|
    ensures AllChecked(rec, final, answers, n)
  {
    if n > 0 {
      ChecksUpto(rec, final, answers, n - 1);
      NextCheck(rec, final, answers, n - 1);
    }
  }

  /** After a whole round, exactly: a payment is in doubt if it was, or if another block than its own is canonical at
      its inclusion, or at an earlier one while it may have run; and its inclusion is final if it was, or if its own
      block is canonical and no doubt reached it. Nothing else changes. */
  lemma RoundIsExact(rec: Record, final: nat, answers: Answers, j: nat)
    requires AttemptsOk(rec) && Numbered(rec) && j < |rec.attempts|
    ensures
      var b := RefreshUpto(rec, final, answers, |rec.attempts|).attempts[j];
      CheckedAs(rec, final, answers, |rec.attempts|, j, b)
  {
    ChecksUpto(rec, final, answers, |rec.attempts|);
  }
}
