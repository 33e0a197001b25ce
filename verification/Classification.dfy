/** What an included payment did to its mint right, judged from attested states of the token. */
module Classification {
  import opened MintTypes
  import ChainSearch

  datatype Outcome = Won | Lost | Refused | Burned | NotVerified | NeedsParent

  /** A later attested block proves success when its current right is the one the payment created there. */
  predicate ClassifyAt(p: Attempt, v: AttestedAsset, lotSize: nat) {
    p.inclusion.Some? && v.right == p.inclusion
    && v.minted == p.minted + lotSize
    && v.held == p.held + lotSize
  }

  /** The verdict from the state attested at the inclusion block (`x`) and, where that leaves two cases, at its
      parent (`y`). */
  function ClassifyExact(p: Attempt, x: AttestedAsset, lotSize: nat, y: Option<AttestedAsset>): Outcome {
    if p.inclusion.None? then NotVerified
    else
      var pos := p.inclusion.value;
      var d := x.held - p.held;
      if d != 0 && d != lotSize then NotVerified
      else if x.right == Some(pos) then
        if d == lotSize && x.minted == p.minted + lotSize then Won
        else if d == 0 && x.minted == p.minted then Burned
        else NotVerified
      else if x.right.None? then
        if x.minted != x.cap then NotVerified
        else if d == lotSize then NotVerified
        else if p.lot < LOTS then Lost
        else if y.None? then NeedsParent
        else if y.value.right.None? then Lost
        else if p.birth.height < y.value.right.value.height < pos.height then Lost
        else NotVerified
      else
        var right := x.right.value;
        if BlockOf(right) == BlockOf(pos) then
          if d != 0 then NotVerified
          else if right.index < pos.index then Lost
          else if y.None? then NeedsParent
          else if y.value.right == Some(p.anchor) then Refused
          else if y.value.right.Some? && p.birth.height < y.value.right.value.height < pos.height then Lost
          else NotVerified
        else if right == p.anchor then (if d == 0 then Refused else NotVerified)
        else if p.birth.height < right.height < pos.height then (if d == 0 then Lost else NotVerified)
        else NotVerified
  }

  /** What a classification reads: the chain below the attested block the position is proven from, the view
      at the next birth block if any, and the views at the inclusion block and its parent, none once those
      are out of the witnesses' reach. */
  datatype Evidence = Evidence(
    chain: ChainSearch.Chain,
    view: Option<AttestedAsset>,
    x: Option<AttestedAsset>,
    y: Option<AttestedAsset>)

  /** `classify`: no verdict before the position is proven; undecided and out-of-reach answers verify nothing. */
  function Classify(p: Attempt, e: Evidence, lotSize: nat): (r: Outcome)
    ensures r != NeedsParent
    ensures r != NotVerified ==>
              p.hash.Some? && p.inclusion.Some? && ChainSearch.ProveInclusion(e.chain, p.hash.value, p.inclusion.value)
  {
    if p.inclusion.None? || p.hash.None? then NotVerified
    else if !ChainSearch.ProveInclusion(e.chain, p.hash.value, p.inclusion.value) then NotVerified
    else if e.view.Some? && ClassifyAt(p, e.view.value, lotSize) then Won
    else if e.x.None? || e.x.value.block != BlockOf(p.inclusion.value) then NotVerified
    else
      var first := ClassifyExact(p, e.x.value, lotSize, None);
      if first != NeedsParent then first
      else if e.y.None? || p.inclusion.value.height == 0
              || e.y.value.block != Block(p.inclusion.value.height - 1, e.x.value.parent) then NotVerified
      else
        var decided := ClassifyExact(p, e.x.value, lotSize, e.y);
        if decided == NeedsParent then NotVerified else decided
  }

  // ---- The right on chain ---------------------------------------------------------------------------

  /** The extrinsic of a block that used the current right, and whether it settled a lot. */
  datatype RightUse = RightUse(index: nat, mints: bool)

  /** Every use creates the next right, usable only from the next block on: one use per block. */
  datatype TokenBlock = TokenBlock(hash: Hash, use: Option<RightUse>)

  /** The anchor of the right in force, if lots are left, and how many units exist. */
  datatype RightState = RightState(right: Option<Position>, minted: nat)

  /** The blocks after a payment's birth block, up to some height, and the token at birth. */
  datatype Segment = Segment(birth: nat, start: RightState, cap: nat, lotSize: nat, blocks: seq<TokenBlock>)

  function Upto(c: Segment, n: nat): Segment
    requires n <= |c.blocks|
  {
    c.(blocks := c.blocks[..n])
  }

  /** Every use ends the right: its exact settlement mints a lot, any other use mints nothing, and the
      next right is anchored at the using extrinsic while a lot remains. */
  function StateAfter(c: Segment, n: nat): RightState
    requires n <= |c.blocks|
  {
    if n == 0 then c.start
    else
      var before := StateAfter(c, n - 1);
      match c.blocks[n - 1].use
      case None => before
      case Some(u) =>
        var minted := before.minted + if u.mints then c.lotSize else 0;
        RightState(if minted == c.cap then None
                   else Some(Position(c.birth + n, c.blocks[n - 1].hash, u.index)), minted)
  }

  /** The chain after the birth block of `p`: attested at birth as the attempt records it, and only a
      current right is ever used. */
  ghost predicate Lawful(c: Segment, p: Attempt) {
    && c.birth == p.birth.height
    && c.lotSize > 0 && c.cap == LOTS * c.lotSize
    && 1 <= p.lot <= LOTS
    && c.start == RightState(Some(p.anchor), p.minted)
    && p.minted == (p.lot - 1) * c.lotSize
    && p.anchor.height <= p.birth.height
    && forall j {:trigger c.blocks[j]} ::
         0 <= j < |c.blocks| && c.blocks[j].use.Some? ==> StateAfter(c, j).right.Some?
  }

  /** The payment sits at `pos` in block `m` of the segment, and its call names one right only: the one
      it was signed for. */
  ghost predicate Ran(c: Segment, p: Attempt, m: nat, pos: Position) {
    && 0 < m <= |c.blocks|
    && pos.height == c.birth + m && pos.hash == c.blocks[m - 1].hash
    && (UsedIt(c, m, pos) ==> StateAfter(c, m - 1).right == Some(p.anchor))
  }

  ghost predicate UsedIt(c: Segment, m: nat, pos: Position)
    requires 0 < m <= |c.blocks|
  {
    c.blocks[m - 1].use.Some? && c.blocks[m - 1].use.value.index == pos.index
  }

  /** Another transaction used the payment's own right before the payment ran. */
  ghost predicate TakenBefore(c: Segment, p: Attempt, m: nat, pos: Position)
    requires 0 < m <= |c.blocks|
  {
    exists j {:trigger TookRight(c, j, m, pos)} ::
      0 <= j < m && StateAfter(c, j).right == Some(p.anchor) && TookRight(c, j, m, pos)
  }

  ghost predicate TookRight(c: Segment, j: nat, m: nat, pos: Position)
    requires j < m <= |c.blocks|
  {
    c.blocks[j].use.Some? && (j < m - 1 || c.blocks[j].use.value.index < pos.index)
  }

  /** What really happened to the payment. */
  ghost function Truth(c: Segment, p: Attempt, m: nat, pos: Position): Outcome
    requires 0 < m <= |c.blocks|
  {
    if UsedIt(c, m, pos) then (if c.blocks[m - 1].use.value.mints then Won else Burned)
    else if TakenBefore(c, p, m, pos) then Lost
    else Refused
  }

  /** Witnesses attest the true state after `n` blocks. */
  ghost predicate Attests(v: AttestedAsset, c: Segment, n: nat) {
    n <= |c.blocks|
    && v.right == StateAfter(c, n).right
    && v.minted == StateAfter(c, n).minted
    && v.cap == c.cap
  }

  // ---- Lemmas ---------------------------------------------------------------------------------------

  ghost predicate Unused(c: Segment, n: nat)
    requires n <= |c.blocks|
  {
    forall j :: 0 <= j < n ==> c.blocks[j].use.None?
  }

  lemma LotsBelow(lot: nat, lotSize: nat)
    requires 1 <= lot <= LOTS
    ensures (lot - 1) * lotSize + lotSize <= LOTS * lotSize
    ensures lot < LOTS && lotSize > 0 ==> (lot - 1) * lotSize + lotSize < LOTS * lotSize
  {
    var left := LOTS - lot;
    assert LOTS * lotSize == (lot - 1 + 1 + left) * lotSize
                          == (lot - 1) * lotSize + lotSize + left * lotSize;
  }

  /** The right is still the payment's exactly while nobody used it, and a moved right says where. */
  lemma {:induction false} RightTellsUse(c: Segment, p: Attempt, n: nat)
    requires Lawful(c, p) && n <= |c.blocks|
    ensures Unused(c, n) ==> StateAfter(c, n) == c.start
    ensures !Unused(c, n) ==> StateAfter(c, n).right != Some(p.anchor)
    ensures !Unused(c, n) && StateAfter(c, n).right.Some? ==>
              p.birth.height < StateAfter(c, n).right.value.height <= p.birth.height + n
    ensures StateAfter(c, n).right.None? <==> StateAfter(c, n).minted == c.cap
    ensures p.minted <= StateAfter(c, n).minted
  {
    if n > 0 {
      RightTellsUse(c, p, n - 1);
    } else {
      LotsBelow(p.lot, c.lotSize);
    }
  }

  /** If anyone used a right since birth, the first use took the payment's right. */
  lemma {:induction false} FirstUse(c: Segment, p: Attempt, n: nat) returns (j: nat)
    requires Lawful(c, p) && n <= |c.blocks| && !Unused(c, n)
    ensures j < n && Unused(c, j) && c.blocks[j].use.Some? && StateAfter(c, j).right == Some(p.anchor)
  {
    if Unused(c, n - 1) {
      j := n - 1;
      RightTellsUse(c, p, j);
    } else {
      j := FirstUse(c, p, n - 1);
    }
  }

  lemma UsedEarlierMeansTaken(c: Segment, p: Attempt, m: nat, pos: Position)
    requires Lawful(c, p) && 0 < m <= |c.blocks| && !Unused(c, m - 1)
    ensures TakenBefore(c, p, m, pos)
  {
    var j := FirstUse(c, p, m - 1);
    assert TookRight(c, j, m, pos);
  }

  lemma NotTakenWhileUnused(c: Segment, p: Attempt, m: nat, pos: Position)
    requires Lawful(c, p) && 0 < m <= |c.blocks| && Unused(c, m - 1)
    ensures TakenBefore(c, p, m, pos)
       <==> c.blocks[m - 1].use.Some? && c.blocks[m - 1].use.value.index < pos.index
  {
    RightTellsUse(c, p, m - 1);
    if c.blocks[m - 1].use.Some? && c.blocks[m - 1].use.value.index < pos.index {
      assert TookRight(c, m - 1, m, pos);
    }
  }

  /** Every verdict given at the inclusion block is what happened on chain, whatever the balances say. */
  lemma ExactVerdictIsTrue(c: Segment, p: Attempt, pos: Position, x: AttestedAsset, y: Option<AttestedAsset>)
    requires Lawful(c, p) && |c.blocks| > 0 && Ran(c, p, |c.blocks|, pos) && p.inclusion == Some(pos)
    requires Attests(x, c, |c.blocks|) && (y.Some? ==> Attests(y.value, c, |c.blocks| - 1))
    ensures ClassifyExact(p, x, c.lotSize, y) in {Truth(c, p, |c.blocks|, pos), NotVerified, NeedsParent}
    ensures y.Some? ==> ClassifyExact(p, x, c.lotSize, y) != NeedsParent
  {
    var m := |c.blocks|;
    RightTellsUse(c, p, m);
    RightTellsUse(c, p, m - 1);
    if Unused(c, m - 1) {
      NotTakenWhileUnused(c, p, m, pos);
      LotsBelow(p.lot, c.lotSize);
    } else {
      UsedEarlierMeansTaken(c, p, m, pos);
    }
  }

  /** With both attested states and a balance that moved only by this payment, the verdict is exactly the
      truth, except in the two sold-out cases the attested state cannot tell apart. */
  lemma ExactVerdictIsComplete(c: Segment, p: Attempt, pos: Position, x: AttestedAsset, y: AttestedAsset)
    requires Lawful(c, p) && |c.blocks| > 0 && Ran(c, p, |c.blocks|, pos) && p.inclusion == Some(pos)
    requires Attests(x, c, |c.blocks|) && Attests(y, c, |c.blocks| - 1)
    requires x.held == p.held + if Truth(c, p, |c.blocks|, pos) == Won then c.lotSize else 0
    ensures ClassifyExact(p, x, c.lotSize, Some(y))
         == if x.right.None? && (x.held != p.held || (p.lot == LOTS && y.right == Some(p.anchor)))
            then NotVerified else Truth(c, p, |c.blocks|, pos)
  {
    var m := |c.blocks|;
    RightTellsUse(c, p, m);
    RightTellsUse(c, p, m - 1);
    if Unused(c, m - 1) {
      NotTakenWhileUnused(c, p, m, pos);
      LotsBelow(p.lot, c.lotSize);
    } else {
      UsedEarlierMeansTaken(c, p, m, pos);
    }
  }

  /** The last use a later block attests, when it sits at the payment's place, is the payment's. */
  lemma {:induction false} LastUseAt(c: Segment, p: Attempt, m: nat, pos: Position, n: nat)
    requires Lawful(c, p) && Ran(c, p, m, pos) && m <= n <= |c.blocks|
    requires StateAfter(c, n).right == Some(pos)
    ensures UsedIt(c, m, pos) && StateAfter(c, n) == StateAfter(c, m)
    ensures forall j :: m <= j < n ==> c.blocks[j].use.None?
    decreases n
  {
    if n > m {
      LastUseAt(c, p, m, pos, n - 1);
    } else {
      RightTellsUse(c, p, m - 1);
    }
  }

  /** A success judged at a later block: the payment used its right and minted, nothing moved since. */
  lemma VerdictAtBirthIsTrue(c: Segment, p: Attempt, m: nat, pos: Position, v: AttestedAsset)
    requires Lawful(c, p) && Ran(c, p, m, pos) && p.inclusion == Some(pos)
    requires Attests(v, c, |c.blocks|)
    requires ClassifyAt(p, v, c.lotSize)
    ensures Truth(c, p, m, pos) == Won
    ensures forall j :: m <= j < |c.blocks| ==> c.blocks[j].use.None?
  {
    LastUseAt(c, p, m, pos, |c.blocks|);
    RightTellsUse(c, p, m - 1);
  }

  /** The owner's balance confirms every verdict: it grew by a lot on success and not at all otherwise. */
  lemma VerdictMatchesBalance(p: Attempt, x: AttestedAsset, lotSize: nat, y: Option<AttestedAsset>)
    requires lotSize > 0
    ensures ClassifyExact(p, x, lotSize, y) == Won ==> x.held == p.held + lotSize && x.minted == p.minted + lotSize
    ensures ClassifyExact(p, x, lotSize, y) in {Lost, Refused, Burned} ==> x.held == p.held
  {
  }

  // ---- The whole classification ---------------------------------------------------------------------

  /** Block `n` after birth; block 0 is the birth block. */
  ghost function BlockAt(c: Segment, p: Attempt, n: nat): Block
    requires n <= |c.blocks|
  {
    Block(c.birth + n, if n == 0 then p.birth.hash else c.blocks[n - 1].hash)
  }

  /** Both witnesses attest the truth about any block of the chain, its parent included. */
  ghost predicate Witnessed(v: Option<AttestedAsset>, c: Segment, p: Attempt) {
    v.Some? ==> forall n :: 0 <= n <= |c.blocks| && v.value.block == BlockAt(c, p, n) ==> WitnessedAt(v.value, c, p, n)
  }

  ghost predicate WitnessedAt(v: AttestedAsset, c: Segment, p: Attempt, n: nat)
    requires n <= |c.blocks|
  {
    Attests(v, c, n) && (n > 0 ==> v.parent == BlockAt(c, p, n - 1).hash)
  }

  lemma {:induction false} UptoStates(c: Segment, m: nat, n: nat)
    requires n <= m <= |c.blocks|
    ensures StateAfter(Upto(c, m), n) == StateAfter(c, n)
  {
    if n > 0 {
      UptoStates(c, m, n - 1);
    }
  }

  lemma UptoLawful(c: Segment, p: Attempt, m: nat)
    requires Lawful(c, p) && m <= |c.blocks|
    ensures Lawful(Upto(c, m), p)
  {
    var d := Upto(c, m);
    forall j | 0 <= j < |d.blocks| && d.blocks[j].use.Some? ensures StateAfter(d, j).right.Some? {
      UptoStates(c, m, j);
    }
  }

  lemma UptoTaken(c: Segment, p: Attempt, m: nat, pos: Position)
    requires 0 < m <= |c.blocks|
    ensures TakenBefore(Upto(c, m), p, m, pos) <==> TakenBefore(c, p, m, pos)
  {
    var d := Upto(c, m);
    if TakenBefore(c, p, m, pos) {
      var j :| 0 <= j < m && StateAfter(c, j).right == Some(p.anchor) && TookRight(c, j, m, pos);
      UptoStates(c, m, j);
      assert TookRight(d, j, m, pos);
    }
    if TakenBefore(d, p, m, pos) {
      var j :| 0 <= j < m && StateAfter(d, j).right == Some(p.anchor) && TookRight(d, j, m, pos);
      UptoStates(c, m, j);
      assert TookRight(c, j, m, pos);
    }
  }

  lemma UptoRan(c: Segment, p: Attempt, m: nat, pos: Position)
    requires Ran(c, p, m, pos)
    ensures Ran(Upto(c, m), p, m, pos) && (UsedIt(Upto(c, m), m, pos) <==> UsedIt(c, m, pos))
    ensures Upto(c, m).blocks[m - 1] == c.blocks[m - 1]
  {
    UptoStates(c, m, m - 1);
  }

  lemma UptoTruth(c: Segment, p: Attempt, m: nat, pos: Position)
    requires Lawful(c, p) && Ran(c, p, m, pos)
    ensures Lawful(Upto(c, m), p) && Ran(Upto(c, m), p, m, pos) && Truth(Upto(c, m), p, m, pos) == Truth(c, p, m, pos)
  {
    UptoLawful(c, p, m);
    UptoRan(c, p, m, pos);
    UptoTaken(c, p, m, pos);
  }

  /** The verdict of a classification, whichever blocks it reads, is what happened on the chain that holds them.
      Witnesses that answer for another block than the one asked for decide nothing. */
  lemma ClassificationIsTrue(c: Segment, p: Attempt, m: nat, pos: Position, e: Evidence)
    requires Lawful(c, p) && Ran(c, p, m, pos) && p.inclusion == Some(pos)
    requires Witnessed(e.view, c, p) && Witnessed(e.x, c, p) && Witnessed(e.y, c, p)
    requires e.view.Some? ==> e.view.value.block == BlockAt(c, p, |c.blocks|)
    ensures Classify(p, e, c.lotSize) in {Truth(c, p, m, pos), NotVerified}
  {
    if p.hash.Some? && ChainSearch.ProveInclusion(e.chain, p.hash.value, pos) {
      if e.view.Some? && ClassifyAt(p, e.view.value, c.lotSize) {
        assert WitnessedAt(e.view.value, c, p, |c.blocks|);
        VerdictAtBirthIsTrue(c, p, m, pos, e.view.value);
      } else if e.x.Some? && e.x.value.block == BlockOf(pos) {
        assert WitnessedAt(e.x.value, c, p, m);
        ExactReadingIsTrue(c, p, m, pos, e);
      }
    }
  }

  lemma ExactReadingIsTrue(c: Segment, p: Attempt, m: nat, pos: Position, e: Evidence)
    requires Lawful(c, p) && Ran(c, p, m, pos) && p.inclusion == Some(pos)
    requires e.x.Some? && e.x.value.block == BlockOf(pos) && WitnessedAt(e.x.value, c, p, m) && Witnessed(e.y, c, p)
    ensures ClassifyExact(p, e.x.value, c.lotSize, None) in {Truth(c, p, m, pos), NotVerified, NeedsParent}
    ensures e.y.Some? && e.y.value.block == Block(pos.height - 1, e.x.value.parent) ==>
              ClassifyExact(p, e.x.value, c.lotSize, e.y) in {Truth(c, p, m, pos), NotVerified}
  {
    UptoTruth(c, p, m, pos);
    UptoAttests(c, m, m, e.x.value);
    ExactVerdictIsTrue(Upto(c, m), p, pos, e.x.value, None);
    if e.y.Some? && e.y.value.block == Block(pos.height - 1, e.x.value.parent) {
      assert e.y.value.block == BlockAt(c, p, m - 1);
      assert WitnessedAt(e.y.value, c, p, m - 1);
      UptoAttests(c, m, m - 1, e.y.value);
      ExactVerdictIsTrue(Upto(c, m), p, pos, e.x.value, e.y);
    }
  }

  lemma UptoAttests(c: Segment, m: nat, n: nat, v: AttestedAsset)
    requires n <= m <= |c.blocks| && Attests(v, c, n)
    ensures Attests(v, Upto(c, m), n)
  {
    UptoStates(c, m, n);
  }

  // ---- When a classification decides ----------------------------------------------------------------

  /** The payment is proven at `pos`, and both witnesses attest the block that holds it. */
  ghost predicate BlockRead(c: Segment, p: Attempt, m: nat, pos: Position, e: Evidence) {
    && Lawful(c, p) && Ran(c, p, m, pos) && p.inclusion == Some(pos)
    && p.hash.Some? && ChainSearch.ProveInclusion(e.chain, p.hash.value, pos)
    && Witnessed(e.view, c, p) && (e.view.Some? ==> e.view.value.block == BlockAt(c, p, |c.blocks|))
    && e.x.Some? && e.x.value.block == BlockOf(pos) && WitnessedAt(e.x.value, c, p, m)
  }

  /** The parent was read and attested. */
  ghost predicate ParentRead(c: Segment, p: Attempt, m: nat, pos: Position, e: Evidence)
    requires e.x.Some? && 0 < m <= |c.blocks|
  {
    e.y.Some? && pos.height > 0 && e.y.value.block == Block(pos.height - 1, e.x.value.parent)
    && WitnessedAt(e.y.value, c, p, m - 1)
  }

  /** The state after the block leaves two cases: the last lot is gone and the owner's balance did not move, or a
      right was used in the block behind the payment. */
  predicate TwoCases(p: Attempt, pos: Position, x: AttestedAsset) {
    if x.right.None? then x.held == p.held && p.lot == LOTS
    else BlockOf(x.right.value) == BlockOf(pos) && x.right.value.index > pos.index
  }

  lemma {:induction false} SoldOutStays(c: Segment, p: Attempt, m: nat, n: nat)
    requires Lawful(c, p) && m <= n <= |c.blocks| && StateAfter(c, m).right.None?
    ensures StateAfter(c, n).right.None?
    decreases n
  {
    if n > m {
      SoldOutStays(c, p, m, n - 1);
    }
  }

  /** At the inclusion block alone the verdict is the truth, but for the two cases and a sold-out token with a moved
      balance. */
  lemma BlockDecides(c: Segment, p: Attempt, pos: Position, x: AttestedAsset)
    requires Lawful(c, p) && |c.blocks| > 0 && Ran(c, p, |c.blocks|, pos) && p.inclusion == Some(pos)
    requires Attests(x, c, |c.blocks|)
    requires x.held == p.held + if Truth(c, p, |c.blocks|, pos) == Won then c.lotSize else 0
    ensures ClassifyExact(p, x, c.lotSize, None)
         == if TwoCases(p, pos, x) then NeedsParent
            else if x.right.None? && x.held != p.held then NotVerified
            else Truth(c, p, |c.blocks|, pos)
  {
    var m := |c.blocks|;
    RightTellsUse(c, p, m);
    RightTellsUse(c, p, m - 1);
    if Unused(c, m - 1) {
      NotTakenWhileUnused(c, p, m, pos);
      LotsBelow(p.lot, c.lotSize);
    } else {
      UsedEarlierMeansTaken(c, p, m, pos);
    }
  }

  /** What is left open at a sold-out block: whose the last lots were, or whether the payment's right was used in the
      block or before. */
  ghost predicate LeftOpen(c: Segment, p: Attempt, m: nat, x: AttestedAsset)
    requires 0 < m <= |c.blocks|
  {
    x.right.None? && (x.held != p.held || (p.lot == LOTS && StateAfter(c, m - 1).right == Some(p.anchor)))
  }

  lemma ViewedIsNotOpen(c: Segment, p: Attempt, m: nat, pos: Position, e: Evidence)
    requires BlockRead(c, p, m, pos, e) && e.view.Some? && ClassifyAt(p, e.view.value, c.lotSize)
    ensures Truth(c, p, m, pos) == Won && !LeftOpen(c, p, m, e.x.value)
  {
    assert WitnessedAt(e.view.value, c, p, |c.blocks|);
    VerdictAtBirthIsTrue(c, p, m, pos, e.view.value);
    if e.x.value.right.None? {
      SoldOutStays(c, p, m, |c.blocks|);
    }
  }

  lemma ParentDecides(c: Segment, p: Attempt, m: nat, pos: Position, x: AttestedAsset, y: AttestedAsset)
    requires Lawful(c, p) && Ran(c, p, m, pos) && p.inclusion == Some(pos)
    requires Attests(x, c, m) && Attests(y, c, m - 1)
    requires x.held == p.held + if Truth(c, p, m, pos) == Won then c.lotSize else 0
    ensures ClassifyExact(p, x, c.lotSize, Some(y))
         == if LeftOpen(c, p, m, x) then NotVerified else Truth(c, p, m, pos)
  {
    UptoTruth(c, p, m, pos);
    UptoAttests(c, m, m, x);
    UptoAttests(c, m, m - 1, y);
    ExactVerdictIsComplete(Upto(c, m), p, pos, x, y);
  }

  lemma FirstDecides(c: Segment, p: Attempt, m: nat, pos: Position, x: AttestedAsset)
    requires Lawful(c, p) && Ran(c, p, m, pos) && p.inclusion == Some(pos) && Attests(x, c, m)
    requires x.held == p.held + if Truth(c, p, m, pos) == Won then c.lotSize else 0
    ensures ClassifyExact(p, x, c.lotSize, None)
         == if TwoCases(p, pos, x) then NeedsParent
            else if x.right.None? && x.held != p.held then NotVerified
            else Truth(c, p, m, pos)
  {
    UptoTruth(c, p, m, pos);
    UptoAttests(c, m, m, x);
    BlockDecides(Upto(c, m), p, pos, x);
  }

  /** A classification that reads the inclusion block, and its parent where two cases are left, always decides, and
      decides what happened, if the owner's balance moved by this payment alone. Two sold-out cases stay open: a moved
      balance, and a last right that was still the payment's before the block. */
  lemma ClassificationDecides(c: Segment, p: Attempt, m: nat, pos: Position, e: Evidence)
    requires BlockRead(c, p, m, pos, e) && (TwoCases(p, pos, e.x.value) ==> ParentRead(c, p, m, pos, e))
    requires e.x.value.held == p.held + if Truth(c, p, m, pos) == Won then c.lotSize else 0
    ensures Classify(p, e, c.lotSize) == if LeftOpen(c, p, m, e.x.value) then NotVerified else Truth(c, p, m, pos)
  {
    if e.view.Some? && ClassifyAt(p, e.view.value, c.lotSize) {
      ViewedIsNotOpen(c, p, m, pos, e);
    } else {
      FirstDecides(c, p, m, pos, e.x.value);
      if TwoCases(p, pos, e.x.value) {
        ParentDecides(c, p, m, pos, e.x.value, e.y.value);
      }
    }
  }

  lemma OneLotLeavesARight(c: Segment, p: Attempt, m: nat, pos: Position)
    requires Lawful(c, p) && Ran(c, p, m, pos) && Truth(c, p, m, pos) == Won
    ensures StateAfter(c, m) == RightState(if p.lot == LOTS then None else Some(pos), p.minted + c.lotSize)
  {
    RightTellsUse(c, p, m - 1);
    LotsBelow(p.lot, c.lotSize);
  }

  lemma {:induction false} NothingMoved(c: Segment, m: nat, n: nat)
    requires m <= n <= |c.blocks| && forall j :: m <= j < n ==> c.blocks[j].use.None?
    ensures StateAfter(c, n) == StateAfter(c, m)
    decreases n
  {
    if n > m {
      NothingMoved(c, m, n - 1);
    }
  }

  /** Without the inclusion block, a later view decides success exactly: the payment won a lot that was not the last,
      nobody used a right since, and the owner holds that lot more. It never decides anything else. */
  lemma ViewDecides(c: Segment, p: Attempt, m: nat, pos: Position, e: Evidence)
    requires Lawful(c, p) && Ran(c, p, m, pos) && p.inclusion == Some(pos) && p.hash.Some?
    requires ChainSearch.ProveInclusion(e.chain, p.hash.value, pos) && e.x.None?
    requires e.view.Some? && Attests(e.view.value, c, |c.blocks|)
    ensures Classify(p, e, c.lotSize)
         == if Truth(c, p, m, pos) == Won && p.lot < LOTS && e.view.value.held == p.held + c.lotSize
               && forall j :: m <= j < |c.blocks| ==> c.blocks[j].use.None?
            then Won else NotVerified
  {
    if ClassifyAt(p, e.view.value, c.lotSize) {
      VerdictAtBirthIsTrue(c, p, m, pos, e.view.value);
      OneLotLeavesARight(c, p, m, pos);
      NothingMoved(c, m, |c.blocks|);
    } else if Truth(c, p, m, pos) == Won && forall j :: m <= j < |c.blocks| ==> c.blocks[j].use.None? {
      OneLotLeavesARight(c, p, m, pos);
      NothingMoved(c, m, |c.blocks|);
    }
  }
}
