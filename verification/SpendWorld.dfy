/** The spend cap on every chain: whichever payments really succeeded, whatever the node said. */
module SpendWorld {
  import opened MintTypes
  import opened SpendAccounting
  import opened LedgerSoundness

  /** Every block there may ever be, by its hash: its ancestry from genesis to itself, the transactions in it,
      those of the session that succeeded there, the owner's balance of the token after it, and the birth
      block every signed payment names in its signed bytes. */
  datatype World = World(
    path: Hash -> seq<Hash>,
    body: Hash -> seq<Hash>,
    wins: Hash -> set<Hash>,
    held: Hash -> nat,
    birth: Hash -> Block)

  /** Block `b` is at its height on the chain that ends at `tip`. */
  ghost predicate OnPath(w: World, tip: Hash, b: Block) {
    b.height < |w.path(tip)| && w.path(tip)[b.height] == b.hash
  }

  /** A hash fixes a block's whole ancestry. */
  ghost predicate Tree(w: World) {
    && (forall t :: |w.path(t)| > 0 && w.path(t)[|w.path(t)| - 1] == t)
    && forall t, h :: 0 <= h < |w.path(t)| ==> w.path(w.path(t)[h]) == w.path(t)[..h + 1]
  }

  /** A payment runs after its birth block, on a chain that contains it, at most once per chain, and only a
      payment that runs succeeds. */
  ghost predicate Mortal(w: World) {
    && (forall t, h, p :: 0 <= h < |w.path(t)| && p in w.body(w.path(t)[h]) ==>
          w.birth(p).height < h && OnPath(w, t, w.birth(p)))
    && (forall t, h, g, p ::
          0 <= h < |w.path(t)| && 0 <= g < |w.path(t)| && p in w.body(w.path(t)[h]) && p in w.body(w.path(t)[g])
          ==> h == g)
    && forall x, p :: p in w.wins(x) ==> p in w.body(x)
  }

  /** The payment succeeded on `tip`'s chain above height `h`. */
  ghost predicate WonAbove(w: World, tip: Hash, h: nat, p: Hash) {
    exists g :: h < g < |w.path(tip)| && p in w.wins(w.path(tip)[g])
  }

  /** Each success credits one lot to the owner, and nothing else takes the owner's tokens. */
  ghost predicate Credits(w: World, lotSize: nat) {
    forall tip, b: Block, winners: set<Hash> ::
      OnPath(w, tip, b) && (forall p <- winners :: WonAbove(w, tip, b.height, p)) ==>
        w.held(tip) >= w.held(b.hash) + lotSize * |winners|
  }

  ghost predicate Lawful(w: World, lotSize: nat) {
    Tree(w) && Mortal(w) && Credits(w, lotSize)
  }

  // ---- What attestations and proofs established when each payment was reserved ----------------------

  /** Attempt `k` was born at an attested block on whose chain every earlier payment is proven in its block. */
  ghost predicate GroundedAt(w: World, rec: Record, k: nat)
    requires k < |rec.attempts|
  {
    var a := rec.attempts[k];
    && |w.path(a.birth.hash)| == a.birth.height + 1
    && a.held == w.held(a.birth.hash)
    && (a.hash.Some? ==> w.birth(a.hash.value) == a.birth)
    && forall i :: 0 <= i < k ==>
         && rec.attempts[i].inclusion.Some? && rec.attempts[i].hash.Some?
         && OnPath(w, a.birth.hash, BlockOf(rec.attempts[i].inclusion.value))
         && rec.attempts[i].hash.value in w.body(rec.attempts[i].inclusion.value.hash)
  }

  ghost predicate InItsBlock(w: World, a: Attempt) {
    a.hash.Some? && a.inclusion.Some? && a.hash.value in w.body(a.inclusion.value.hash)
  }

  ghost predicate Grounded(w: World, rec: Record) {
    && (forall k :: 0 <= k < |rec.attempts| ==> GroundedAt(w, rec, k))
    && (forall k :: 0 <= k < |rec.attempts| && AdmitsSuccessor(rec.attempts[k].status) ==>
          InItsBlock(w, rec.attempts[k]))
  }

  /** Only the last attempt's hash, status and inclusion change, and nothing that grounds earlier ones. */
  lemma GroundStands(w: World, r: Record, s: Record)
    requires Grounded(w, r) && SameChain(r, s)
    requires r.attempts != [] && LastOf(s).hash.Some? ==>
               LastOf(s).hash == LastOf(r).hash || w.birth(LastOf(s).hash.value) == LastOf(r).birth
    requires r.attempts != [] && AdmitsSuccessor(LastOf(s).status) ==>
               || InItsBlock(w, LastOf(s))
               || (LastOf(s).status == LastOf(r).status && LastOf(s).hash == LastOf(r).hash
                   && LastOf(s).inclusion == LastOf(r).inclusion)
    ensures Grounded(w, s)
  {
    forall k | 0 <= k < |s.attempts| && AdmitsSuccessor(s.attempts[k].status)
      ensures InItsBlock(w, s.attempts[k])
    {
      assert k < |s.attempts| - 1 ==> InItsBlock(w, r.attempts[k]);
    }
    forall k | 0 <= k < |s.attempts| ensures GroundedAt(w, s, k) {
      assert GroundedAt(w, r, k);
    }
  }

  // ---- Lemma S --------------------------------------------------------------------------------------

  ghost predicate WonOn(w: World, tip: Hash, a: Attempt) {
    a.hash.Some? && exists h :: 0 <= h < |w.path(tip)| && a.hash.value in w.wins(w.path(tip)[h])
  }

  /** The payments of the session that really succeeded on `tip`'s chain. */
  ghost function Winners(w: World, tip: Hash, attempts: seq<Attempt>): Choice {
    seq(|attempts|, i requires 0 <= i < |attempts| => WonOn(w, tip, attempts[i]))
  }

  /** A success brings its birth block, hence that block's whole ancestry, with it. */
  lemma BirthOfAWin(w: World, rec: Record, lotSize: nat, tip: Hash, k: nat)
    requires Lawful(w, lotSize) && Grounded(w, rec) && k < |rec.attempts| && WonOn(w, tip, rec.attempts[k])
    ensures OnPath(w, tip, rec.attempts[k].birth)
    ensures w.path(rec.attempts[k].birth.hash) == w.path(tip)[..rec.attempts[k].birth.height + 1]
  {
    assert GroundedAt(w, rec, k);
    var p := rec.attempts[k].hash.value;
    var h :| 0 <= h < |w.path(tip)| && p in w.wins(w.path(tip)[h]);
    assert p in w.body(w.path(tip)[h]);
  }

  /** A payment runs at most once per chain. */
  lemma RunsOnce(w: World, tip: Hash, p: Hash, h: nat, g: nat)
    requires Mortal(w) && h < |w.path(tip)| && g < |w.path(tip)|
    requires p in w.body(w.path(tip)[h]) && p in w.body(w.path(tip)[g])
    ensures h == g
  {
  }

  /** A later success fixes the chain below it: an earlier success sits in its recorded block. */
  lemma EarlierWinIsRecorded(w: World, rec: Record, lotSize: nat, tip: Hash, i: nat, k: nat)
    requires Lawful(w, lotSize) && Chained(rec) && Grounded(w, rec)
    requires i < k < |rec.attempts| && WonOn(w, tip, rec.attempts[k]) && WonOn(w, tip, rec.attempts[i])
    ensures WonAbove(w, rec.attempts[k].birth.hash, rec.attempts[0].birth.height, rec.attempts[i].hash.value)
  {
    var home, p := rec.attempts[k].birth, rec.attempts[i].hash.value;
    BirthOfAWin(w, rec, lotSize, tip, k);
    assert GroundedAt(w, rec, k);
    var at := rec.attempts[i].inclusion.value;
    assert w.path(home.hash)[at.height] == w.path(tip)[at.height] == at.hash;
    var h :| 0 <= h < |w.path(tip)| && p in w.wins(w.path(tip)[h]);
    RunsOnce(w, tip, p, h, at.height);
    RunsAfterFirstBirth(w, rec, tip, i, h);
  }

  lemma RunsAfterFirstBirth(w: World, rec: Record, tip: Hash, i: nat, h: nat)
    requires Mortal(w) && Chained(rec) && Grounded(w, rec) && i < |rec.attempts| && rec.attempts[i].hash.Some?
    requires h < |w.path(tip)| && rec.attempts[i].hash.value in w.body(w.path(tip)[h])
    ensures rec.attempts[0].birth.height < h
  {
    assert GroundedAt(w, rec, i);
    BirthsAscend(rec, 0, i);
  }

  lemma {:induction false} BirthsAscend(rec: Record, i: nat, j: nat)
    requires Chained(rec) && i <= j < |rec.attempts|
    ensures i < j ==> rec.attempts[i].birth.height < rec.attempts[j].birth.height
    decreases j
  {
    if i < j {
      BirthsAscend(rec, i, j - 1);
      assert Followed(rec, j - 1);
    }
  }

  lemma FirstBirthOnPath(w: World, rec: Record, lotSize: nat, k: nat)
    requires Lawful(w, lotSize) && Chained(rec) && Grounded(w, rec) && k < |rec.attempts|
    ensures OnPath(w, rec.attempts[k].birth.hash, rec.attempts[0].birth)
  {
    assert GroundedAt(w, rec, k) && GroundedAt(w, rec, 0);
    var b := rec.attempts[k].birth.hash;
    if k == 0 {
      assert w.path(b)[|w.path(b)| - 1] == b;
    } else {
      var at := rec.attempts[0].inclusion.value;
      assert w.path(b)[at.height] == at.hash;
    }
  }

  ghost function WinnerHashes(w: World, tip: Hash, attempts: seq<Attempt>): set<Hash> {
    set a <- attempts | WonOn(w, tip, a) :: a.hash.value
  }

  ghost predicate DistinctHashes(attempts: seq<Attempt>) {
    forall i, j :: 0 <= i < j < |attempts| && attempts[i].hash.Some? && attempts[j].hash.Some? ==>
      attempts[i].hash != attempts[j].hash
  }

  lemma WinnerHashesWithLast(w: World, tip: Hash, attempts: seq<Attempt>)
    requires attempts != []
    ensures
      var a := attempts[|attempts| - 1];
      WinnerHashes(w, tip, attempts)
      == WinnerHashes(w, tip, attempts[..|attempts| - 1]) + if WonOn(w, tip, a) then {a.hash.value} else {}
  {
    assert attempts == attempts[..|attempts| - 1] + [attempts[|attempts| - 1]];
  }

  lemma LastHashIsNew(w: World, tip: Hash, attempts: seq<Attempt>)
    requires attempts != [] && DistinctHashes(attempts) && attempts[|attempts| - 1].hash.Some?
    ensures attempts[|attempts| - 1].hash.value !in WinnerHashes(w, tip, attempts[..|attempts| - 1])
  {
    var k := |attempts| - 1;
    forall a | a in attempts[..k] && a.hash.Some? ensures a.hash != attempts[k].hash {
      var i :| 0 <= i < k && attempts[..k][i] == a;
      assert attempts[i].hash != attempts[k].hash;
    }
  }

  lemma {:induction false} WinnersAreCounted(w: World, tip: Hash, attempts: seq<Attempt>)
    requires DistinctHashes(attempts)
    ensures |WinnerHashes(w, tip, attempts)| == Chosen(Winners(w, tip, attempts))
  {
    if attempts != [] {
      var k := |attempts| - 1;
      WinnersAreCounted(w, tip, attempts[..k]);
      assert Winners(w, tip, attempts)[..k] == Winners(w, tip, attempts[..k]);
      WinnerHashesWithLast(w, tip, attempts);
      if attempts[k].hash.Some? {
        LastHashIsNew(w, tip, attempts);
      }
    }
  }

  lemma HashesAreDistinct(w: World, rec: Record)
    requires Chained(rec) && Grounded(w, rec)
    ensures DistinctHashes(rec.attempts)
  {
    forall i, j | 0 <= i < j < |rec.attempts| && rec.attempts[i].hash.Some? && rec.attempts[j].hash.Some?
      ensures rec.attempts[i].hash != rec.attempts[j].hash
    {
      BirthsAscend(rec, i, j);
      assert GroundedAt(w, rec, i) && GroundedAt(w, rec, j);
    }
  }

  /** The birth block of a later success holds a lot more for every earlier success. */
  lemma EarlierWinsAreHeld(w: World, rec: Record, tip: Hash, k: nat)
    requires Lawful(w, rec.terms.lotAmount) && Chained(rec) && Grounded(w, rec)
    requires k < |rec.attempts| && WonOn(w, tip, rec.attempts[k])
    ensures w.held(rec.attempts[k].birth.hash)
         >= w.held(rec.attempts[0].birth.hash)
            + rec.terms.lotAmount * |WinnerHashes(w, tip, rec.attempts[..k])|
  {
    var before := rec.attempts[..k];
    var home, first := rec.attempts[k].birth, rec.attempts[0].birth;
    var winners := WinnerHashes(w, tip, before);
    FirstBirthOnPath(w, rec, rec.terms.lotAmount, k);
    forall p | p in winners ensures WonAbove(w, home.hash, first.height, p) {
      var a :| a in before && WonOn(w, tip, a) && a.hash.value == p;
      var i :| 0 <= i < k && before[i] == a;
      EarlierWinIsRecorded(w, rec, rec.terms.lotAmount, tip, i, k);
    }
  }

  /** The held check: below a later success, no more payments succeeded than the record counts as minted. */
  lemma WinnersBelowAreMinted(w: World, rec: Record, tip: Hash, k: nat)
    requires Lawful(w, rec.terms.lotAmount) && Chained(rec) && Grounded(w, rec)
    requires k < |rec.attempts| && WonOn(w, tip, rec.attempts[k])
    ensures Chosen(Winners(w, tip, rec.attempts[..k])) <= CountStatus(rec.attempts[..k], Minted)
  {
    var before := rec.attempts[..k];
    HashesAreDistinct(w, rec);
    WinnersAreCounted(w, tip, before);
    EarlierWinsAreHeld(w, rec, tip, k);
    assert GroundedAt(w, rec, k) && GroundedAt(w, rec, 0) && Admitted(rec, k);
    var winners, minted := |WinnerHashes(w, tip, before)|, CountStatus(before, Minted);
    if winners > minted {
      LessTimes(rec.terms.lotAmount, minted, winners);
    }
  }

  lemma LessTimes(x: nat, a: nat, b: nat)
    requires x > 0 && a < b
    ensures x * a < x * b
  {
  }

  /** Lemma S, for the first `n` payments: whatever really succeeded on a chain stays within the cap. */
  lemma {:induction false} CapHoldsUpto(w: World, rec: Record, tip: Hash, n: nat)
    requires Lawful(w, rec.terms.lotAmount) && Chained(rec) && Grounded(w, rec) && n <= |rec.attempts|
    ensures ChosenCharge(rec.attempts[..n], Winners(w, tip, rec.attempts[..n]), rec.ticket) <= rec.terms.maxSpend
    ensures Chosen(Winners(w, tip, rec.attempts[..n])) <= rec.terms.maxLots
  {
    if n > 0 {
      var k := n - 1;
      var upto, before := rec.attempts[..n], rec.attempts[..k];
      assert upto[..k] == before;
      assert Winners(w, tip, upto)[..k] == Winners(w, tip, before);
      if WonOn(w, tip, rec.attempts[k]) {
        assert Admitted(rec, k);
        WinnersBelowAreMinted(w, rec, tip, k);
        forall i | 0 <= i < k ensures AdmitsSuccessor(before[i].status) {
          assert Followed(rec, i);
        }
        BoundDominates(before, rec.ticket, Winners(w, tip, before));
      } else {
        CapHoldsUpto(w, rec, tip, k);
      }
    }
  }

  /** Lemma S: the winners of any chain cost at most `maxSpend` and number at most `maxLots`. */
  lemma CapHoldsOnEveryChain(w: World, rec: Record, tip: Hash)
    requires Lawful(w, rec.terms.lotAmount) && Chained(rec) && Grounded(w, rec)
    ensures ChosenCharge(rec.attempts, Winners(w, tip, rec.attempts), rec.ticket) <= rec.terms.maxSpend
    ensures Chosen(Winners(w, tip, rec.attempts)) <= rec.terms.maxLots
  {
    assert rec.attempts[..|rec.attempts|] == rec.attempts;
    CapHoldsUpto(w, rec, tip, |rec.attempts|);
  }

  // ---- The assumptions hold of some world -----------------------------------------------------------

  /** Genesis 0, its child 1, and block 2 on it, in which payment 7, born at block 1, succeeds. */
  ghost function SmallWorld(lotSize: nat): World {
    World(
      t => if t == 0 then [0] else if t == 2 then [0, 1, 2] else [0, t],
      t => if t == 2 then [7] else [],
      t => if t == 2 then {7} else {},
      t => if t == 2 then lotSize else 0,
      p => Block(1, 1))
  }

  lemma SmallWorldCredits(lotSize: nat, tip: Hash, b: Block, winners: set<Hash>)
    requires OnPath(SmallWorld(lotSize), tip, b)
    requires forall p <- winners :: WonAbove(SmallWorld(lotSize), tip, b.height, p)
    ensures SmallWorld(lotSize).held(tip) >= SmallWorld(lotSize).held(b.hash) + lotSize * |winners|
  {
    var w := SmallWorld(lotSize);
    forall p | p in winners ensures p == 7 && tip == 2 && b.height < 2 {
      assert WonAbove(w, tip, b.height, p);
      var g :| b.height < g < |w.path(tip)| && p in w.wins(w.path(tip)[g]);
    }
    if winners == {} {
    } else {
      assert winners == {7} by {
        var p :| p in winners;
      }
    }
  }

  lemma SmallWorldIsATree(lotSize: nat)
    ensures Tree(SmallWorld(lotSize))
  {
    var w := SmallWorld(lotSize);
    forall t: Hash, h: nat | h < |w.path(t)| ensures w.path(w.path(t)[h]) == w.path(t)[..h + 1] {
      assert w.path(t) == if t == 0 then [0] else if t == 2 then [0, 1, 2] else [0, t];
    }
  }

  lemma SmallWorldIsMortal(lotSize: nat)
    ensures Mortal(SmallWorld(lotSize))
  {
    var w := SmallWorld(lotSize);
    forall t: Hash, h: nat, p: Hash | h < |w.path(t)| && p in w.body(w.path(t)[h]) ensures t == 2 && h == 2 {
      assert w.path(t)[h] == 2;
    }
  }

  /** A chain on which a payment of the session succeeds meets every assumption made of chains. */
  lemma SomeWorldIsLawful(lotSize: nat)
    ensures Lawful(SmallWorld(lotSize), lotSize)
    ensures 7 in SmallWorld(lotSize).wins(2) && |SmallWorld(lotSize).path(2)| == 3
  {
    SmallWorldIsATree(lotSize);
    SmallWorldIsMortal(lotSize);
    SmallWorldIsCredited(lotSize);
  }

  lemma SmallWorldIsCredited(lotSize: nat)
    ensures Credits(SmallWorld(lotSize), lotSize)
  {
    var w := SmallWorld(lotSize);
    forall tip: Hash, b: Block, winners: set<Hash>
      | OnPath(w, tip, b) && (forall p <- winners :: WonAbove(w, tip, b.height, p))
      ensures w.held(tip) >= w.held(b.hash) + lotSize * |winners|
    {
      SmallWorldCredits(lotSize, tip, b, winners);
    }
  }
}
