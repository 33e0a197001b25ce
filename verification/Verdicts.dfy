/** What the status a judged payment takes says of the mint right, and what a judgement does to the session. */
module Verdicts {
  import opened MintTypes
  import opened LedgerSoundness
  import opened Classification
  import opened SessionMachine

  /** A judgement of `p` from `e` about the chain `c`, on which `p` ran at `pos`: every block read is attested truly. */
  ghost predicate About(c: Segment, p: Attempt, m: nat, pos: Position, e: Evidence, lotSize: nat) {
    && Lawful(c, p) && Ran(c, p, m, pos) && p.inclusion == Some(pos) && c.lotSize == lotSize
    && Witnessed(e.view, c, p) && Witnessed(e.x, c, p) && Witnessed(e.y, c, p)
    && (e.view.Some? ==> e.view.value.block == BlockAt(c, p, |c.blocks|))
  }

  ghost predicate Mints(c: Segment, m: nat, pos: Position)
    requires 0 < m <= |c.blocks|
  {
    UsedIt(c, m, pos) && c.blocks[m - 1].use.value.mints
  }

  /** What a recorded status says: a lot was minted with the payment's right; another transaction took that right
      before; the right was there and the payment did not use it; or it was used and minted nothing. */
  ghost predicate Tells(status: Status, c: Segment, p: Attempt, m: nat, pos: Position)
    requires 0 < m <= |c.blocks|
  {
    && (status == Minted ==> Mints(c, m, pos))
    && (status == LostRace ==> !UsedIt(c, m, pos) && TakenBefore(c, p, m, pos))
    && (status == Failed ==> !UsedIt(c, m, pos) && !TakenBefore(c, p, m, pos)
                             && StateAfter(c, m - 1).right == Some(p.anchor))
    && (status == Anomaly ==> UsedIt(c, m, pos) && !Mints(c, m, pos))
  }

  lemma RefusedHadItsRight(c: Segment, p: Attempt, m: nat, pos: Position)
    requires Lawful(c, p) && Ran(c, p, m, pos) && Truth(c, p, m, pos) == Refused
    ensures StateAfter(c, m - 1).right == Some(p.anchor)
  {
    if Unused(c, m - 1) {
      RightTellsUse(c, p, m - 1);
    } else {
      UsedEarlierMeansTaken(c, p, m, pos);
    }
  }

  /** A status given to a payment for what a classification says of it is true of the chain. */
  lemma VerdictTells(p: Attempt, e: Evidence, c: Segment, m: nat, pos: Position)
    requires About(c, p, m, pos, e, c.lotSize) && Classify(p, e, c.lotSize) != NotVerified
    ensures Tells(VerdictOf(Classify(p, e, c.lotSize)), c, p, m, pos)
  {
    ClassificationIsTrue(c, p, m, pos, e);
    if Truth(c, p, m, pos) == Refused {
      RefusedHadItsRight(c, p, m, pos);
    }
  }

  /** In a pass and in the settle task alike, a judged payment stays included or takes a status that is true of the
      chain; the other payments and history stay as they were. */
  lemma JudgementTells(s: State, e: Evidence, c: Segment, m: nat, pos: Position)
    requires Enabled(s, Judge(e)) && About(c, LastOf(s.rec), m, pos, e, s.rec.terms.lotAmount)
    ensures
      var t := Apply(s, Judge(e));
      && t.rec == WithLast(s.rec, LastOf(s.rec).(status := LastOf(t.rec).status)) && t.lines == s.lines
      && LastOf(t.rec).status in {Included, Minted, LostRace, Failed, Anomaly}
      && Tells(LastOf(t.rec).status, c, LastOf(s.rec), m, pos)
  {
    if Classify(LastOf(s.rec), e, s.rec.terms.lotAmount) != NotVerified {
      VerdictTells(LastOf(s.rec), e, c, m, pos);
    }
  }

  lemma JudgementTellsAll(s: State, e: Evidence)
    requires Enabled(s, Judge(e))
    ensures forall c: Segment, m: nat, pos: Position :: About(c, LastOf(s.rec), m, pos, e, s.rec.terms.lotAmount) ==>
              Tells(LastOf(Apply(s, Judge(e)).rec).status, c, LastOf(s.rec), m, pos)
  {
    forall c: Segment, m: nat, pos: Position | About(c, LastOf(s.rec), m, pos, e, s.rec.terms.lotAmount)
      ensures Tells(LastOf(Apply(s, Judge(e)).rec).status, c, LastOf(s.rec), m, pos)
    {
      JudgementTells(s, e, c, m, pos);
    }
  }

  lemma SameWitness(v: Option<AttestedAsset>, c: Segment, p: Attempt, q: Attempt)
    requires Witnessed(v, c, p) && p.birth == q.birth
    ensures Witnessed(v, c, q)
  {
    forall n: nat | v.Some? && n <= |c.blocks| && v.value.block == BlockAt(c, q, n)
      ensures WitnessedAt(v.value, c, q, n)
    {
      assert v.value.block == BlockAt(c, p, n);
      assert n > 0 ==> BlockAt(c, p, n - 1) == BlockAt(c, q, n - 1);
    }
  }

  /** A pass goes on after a lot or a lost race, and ends the session after anything else; the settle task goes on. A
      new status is saved. */
  lemma JudgementEnds(s: State, e: Evidence)
    requires Enabled(s, Judge(e))
    ensures
      var t := Apply(s, Judge(e));
      var status := LastOf(t.rec).status;
      && t.phase == (if s.phase == Settling || status in {Minted, LostRace} then s.phase
                     else if status == Failed then Ending(PaymentFailed)
                     else if status == Anomaly then Ending(PaymentAnomaly)
                     else Ending(Unverified))
      && t.queue == if status == Included then s.queue else s.queue + [Snap(t.rec, t.lines)]
  {
  }

  /** With the inclusion block read, and its parent where two cases are left, the payment takes exactly the status that
      is true of it, but for the two sold-out cases nobody can tell apart. */
  lemma JudgementDecides(s: State, e: Evidence, c: Segment, m: nat, pos: Position)
    requires Enabled(s, Judge(e)) && BlockRead(c, LastOf(s.rec), m, pos, e) && c.lotSize == s.rec.terms.lotAmount
    requires TwoCases(LastOf(s.rec), pos, e.x.value) ==> ParentRead(c, LastOf(s.rec), m, pos, e)
    requires e.x.value.held == LastOf(s.rec).held + if Mints(c, m, pos) then c.lotSize else 0
    ensures
      var p, status := LastOf(s.rec), LastOf(Apply(s, Judge(e)).rec).status;
      if LeftOpen(c, p, m, e.x.value) then status == Included
      else
        && (status == Minted <==> Mints(c, m, pos))
        && (status == Anomaly <==> UsedIt(c, m, pos) && !Mints(c, m, pos))
        && (status == LostRace <==> !UsedIt(c, m, pos) && TakenBefore(c, p, m, pos))
        && (status == Failed <==> !UsedIt(c, m, pos) && !TakenBefore(c, p, m, pos))
  {
    ClassificationDecides(c, LastOf(s.rec), m, pos, e);
  }
}
