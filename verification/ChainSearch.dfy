/** Where a payment is on one chain: a binary search over account nonces on proven ancestry. */
module ChainSearch {
  import opened MintTypes

  /** A block as the searches see it; `nonce` is the account's next nonce after the block. */
  datatype ChainBlock = ChainBlock(hash: Hash, body: seq<Hash>, nonce: nat)

  /** The ancestry of its last block, by height. */
  type Chain = c: seq<ChainBlock> | |c| > 0 witness [ChainBlock(0, [], 0)]

  const MAX_WALK: nat := 512

  datatype Payment = Payment(hash: Hash, nonce: nat, birth: Block)

  datatype Search = AtBlock(at: Position) | Pending | NonceTaken | Unprovable
  datatype Fate = Found(search: Search) | DeadBirth | EraEnded

  function TipHeight(c: Chain): nat {
    |c| - 1
  }

  // ---- Proven reads, by their specification ---------------------------------------------------------

  /** Hashes by height from `low` to the tip, or none when that is not provable. */
  function ProvenAncestry(c: Chain, low: nat): Option<map<nat, Hash>> {
    if low > TipHeight(c) || TipHeight(c) - low > MAX_WALK then None
    else Some(map h: nat | low <= h < |c| :: c[h].hash)
  }

  /** First place of `x` in `s`, or its length. */
  function IndexOf(s: seq<Hash>, x: Hash): (i: nat)
    ensures i <= |s| && x !in s[..i] && (i < |s| ==> s[i] == x) && (x in s <==> i < |s|)
  {
    if s == [] || s[0] == x then 0 else 1 + IndexOf(s[1..], x)
  }

  // ---- Reorganization watch and lineage -------------------------------------------------------------

  function LowestHeight(blocks: seq<Block>): nat
    requires blocks != []
  {
    if |blocks| == 1 then blocks[0].height
    else
      var rest := LowestHeight(blocks[1..]);
      if blocks[0].height < rest then blocks[0].height else rest
  }

  predicate OnAncestry(c: Chain, blocks: seq<Block>) {
    blocks == [] ||
    var proven := ProvenAncestry(c, LowestHeight(blocks));
    proven.Some? && forall b <- blocks :: b.height in proven.value && proven.value[b.height] == b.hash
  }

  /** The account's nonce claimed at the tip when the lineage holds and the nonce is past `nonce`. */
  function ProveLineage(c: Chain, blocks: seq<Block>, claimed: nat, nonce: nat): Option<nat> {
    if OnAncestry(c, blocks) && claimed > nonce then Some(claimed) else None
  }

  predicate ProveInclusion(c: Chain, hash: Hash, at: Position) {
    && ProvenAncestry(c, at.height).Some?
    && c[at.height].hash == at.hash
    && hash in c[at.height].body
    && IndexOf(c[at.height].body, hash) == at.index
  }

  lemma {:induction false} LowestIsLowest(blocks: seq<Block>)
    requires blocks != []
    ensures forall b <- blocks :: LowestHeight(blocks) <= b.height
    ensures exists b <- blocks :: LowestHeight(blocks) == b.height
  {
    if |blocks| > 1 {
      LowestIsLowest(blocks[1..]);
      assert blocks == [blocks[0]] + blocks[1..];
      assert blocks[0] in blocks;
    } else {
      assert blocks[0] in blocks;
    }
  }

  /** The watch holds exactly when every block is on the chain and none is too deep to prove. */
  lemma OnAncestryMeans(c: Chain, blocks: seq<Block>)
    ensures OnAncestry(c, blocks)
       <==> forall b <- blocks :: b.height < |c| && c[b.height].hash == b.hash && TipHeight(c) - b.height <= MAX_WALK
  {
    if blocks != [] {
      LowestIsLowest(blocks);
      var low :| low in blocks && low.height == LowestHeight(blocks);
      if forall b <- blocks :: b.height < |c| && c[b.height].hash == b.hash && TipHeight(c) - b.height <= MAX_WALK {
        assert low.height < |c|;
      }
    }
  }

  /** The lineage holds exactly if every block is on the chain, none more than 512 blocks deep, and the claimed nonce is
      at least one past the previous payment's; then it is the claimed nonce. */
  lemma LineageMeans(c: Chain, blocks: seq<Block>, claimed: nat, nonce: nat)
    ensures ProveLineage(c, blocks, claimed, nonce)
         == if claimed >= nonce + 1 && forall b <- blocks ::
                 b.height < |c| && c[b.height].hash == b.hash && |c| - 1 - b.height <= 512
            then Some(claimed) else None
  {
    OnAncestryMeans(c, blocks);
  }

  // ---- Search ---------------------------------------------------------------------------------------

  predicate ValidFor(p: Payment, h: nat) {
    p.birth.height < h <= p.birth.height + ERA_PERIOD - 1
  }

  /** What the chain's own rules give: nonces never decrease, and a payment runs only in its era, only on
      a chain that contains its birth block, and uses its nonce where it runs. */
  ghost predicate Lawful(c: Chain, p: Payment) {
    && (forall i, j :: 0 <= i <= j < |c| ==> c[i].nonce <= c[j].nonce)
    && forall h :: 0 <= h < |c| && p.hash in c[h].body ==>
         && ValidFor(p, h)
         && c[p.birth.height].hash == p.birth.hash
         && c[h - 1].nonce <= p.nonce < c[h].nonce
  }

  /** The node's account reads: a claimed nonce per height. */
  ghost predicate Truthful(c: Chain, claims: seq<nat>) {
    |claims| == |c| && forall h :: 0 <= h < |c| ==> claims[h] == c[h].nonce
  }

  ghost predicate OnChain(c: Chain, p: Payment) {
    exists h :: 0 <= h < |c| && p.hash in c[h].body
  }

  ghost predicate IsAt(c: Chain, p: Payment, at: Position) {
    && at.height < |c| && ValidFor(p, at.height)
    && c[at.height].hash == at.hash
    && at.index < |c[at.height].body| && c[at.height].body[at.index] == p.hash
    && p.hash !in c[at.height].body[..at.index]
  }

  /** The right answer for a payment on a chain. */
  ghost predicate Answers(c: Chain, p: Payment, r: Search) {
    var used := c[TipHeight(c)].nonce > p.nonce;
    var provable := ProvenAncestry(c, p.birth.height + 1).Some?;
    match r
    case Pending => !used
    case Unprovable => used && !provable
    case AtBlock(at) => used && provable && IsAt(c, p, at)
    case NonceTaken => used && provable && !OnChain(c, p)
  }

  /** The block that holds the payment is the first one whose nonce is past it. */
  lemma FirstUseOfNonce(c: Chain, p: Payment, h: nat, k: nat)
    requires Lawful(c, p) && h < |c| && p.hash in c[h].body && k < |c|
    ensures c[k].nonce > p.nonce <==> h <= k
  {
    assert k <= h - 1 ==> c[k].nonce <= c[h - 1].nonce;
  }

  /** `findInclusion`: `claims` is the node's word on the account's nonces, by height. */
  method FindInclusion(c: Chain, claims: seq<nat>, p: Payment) returns (r: Search)
    requires |claims| == |c|
    // Whatever the node claims, a position is proven: in the era, at the hash's first place.
    ensures r.AtBlock? ==> IsAt(c, p, r.at)
    ensures Truthful(c, claims) && Lawful(c, p) ==> Answers(c, p, r)
  {
    if claims[TipHeight(c)] <= p.nonce {
      return Pending;
    }
    var proven := ProvenAncestry(c, p.birth.height + 1);
    if proven.None? {
      return Unprovable;
    }
    var low := p.birth.height + 1;
    var last := p.birth.height + ERA_PERIOD - 1;
    var high := if TipHeight(c) < last then TipHeight(c) else last;
    if high < TipHeight(c) && claims[high] <= p.nonce {
      return NonceTaken;
    }
    while low < high
      invariant p.birth.height < low <= high <= last && high < |c|
      invariant claims[high] > p.nonce
      invariant Truthful(c, claims) && Lawful(c, p) ==>
                  forall h :: 0 <= h < |c| && p.hash in c[h].body ==> low <= h <= high
    {
      var middle := low + (high - low) / 2;
      forall h | Lawful(c, p) && 0 <= h < |c| && p.hash in c[h].body
        ensures c[middle].nonce > p.nonce <==> h <= middle
      {
        FirstUseOfNonce(c, p, h, middle);
      }
      if claims[middle] > p.nonce {
        high := middle;
      } else {
        low := middle + 1;
      }
    }
    var index := IndexOf(c[high].body, p.hash);
    if index == |c[high].body| {
      return NonceTaken;
    }
    return AtBlock(Position(high, proven.value[high], index));
  }

  /** A payment is on the chain exactly when the answer is its position, if the window can be proven. */
  lemma AnswerDecidesPresence(c: Chain, p: Payment, r: Search)
    requires Lawful(c, p) && Answers(c, p, r) && !r.Unprovable?
    ensures r.AtBlock? <==> OnChain(c, p)
  {
    if OnChain(c, p) {
      var h :| 0 <= h < |c| && p.hash in c[h].body;
      assert c[h].nonce <= c[TipHeight(c)].nonce;
    }
    assert r.AtBlock? ==> p.hash in c[r.at.height].body;
  }

  /** A chain has one answer only. */
  lemma AnswerIsUnique(c: Chain, p: Payment, r: Search, s: Search)
    requires Lawful(c, p) && Answers(c, p, r) && Answers(c, p, s)
    ensures r == s
  {
    assert r.AtBlock? ==> p.hash in c[r.at.height].body;
    assert s.AtBlock? ==> p.hash in c[s.at.height].body;
    if r.AtBlock? && s.AtBlock? {
      FirstUseOfNonce(c, p, r.at.height, s.at.height);
      FirstUseOfNonce(c, p, s.at.height, r.at.height);
    }
  }

  // ---- Fate -----------------------------------------------------------------------------------------

  /** No chain that extends `final` lawfully ever holds the payment. */
  ghost predicate NeverIncluded(final: Chain, p: Payment) {
    forall later: Chain :: final <= later && Lawful(later, p) ==> !OnChain(later, p)
  }

  /** The fate of a payment the tip's chain shows pending, on the chain that counts as final. */
  ghost predicate JudgedOn(final: Chain, p: Payment, r: Fate) {
    var h := TipHeight(final);
    match r
    case DeadBirth => h >= p.birth.height && final[p.birth.height].hash != p.birth.hash
    case EraEnded => h > p.birth.height + ERA_PERIOD && final[h].nonce <= p.nonce
                     && final[p.birth.height].hash == p.birth.hash
    case Found(s) => (h >= p.birth.height ==> final[p.birth.height].hash == p.birth.hash)
                     && if h > p.birth.height + ERA_PERIOD then s != Pending && Answers(final, p, s) else s == Pending
  }

  /** While the tip's chain shows the payment, or a spent nonce, that is its fate; else it is judged on the final chain,
      and ruled out only if no extension of it can hold the payment. */
  ghost predicate RightFate(tip: Chain, final: Chain, p: Payment, r: Fate) {
    && (Answers(tip, p, Pending) ==> JudgedOn(final, p, r))
    && (!Answers(tip, p, Pending) ==> r.Found? && Answers(tip, p, r.search))
    && (!r.Found? ==> NeverIncluded(final, p))
  }

  /** `locatePayment`: on the tip's chain, then, while pending, on the chain that counts as final.
      `canonical` is the node's hash at the birth height. None is a failed read. */
  method LocatePayment(tip: Chain, tipClaims: seq<nat>, final: Chain, finalClaims: seq<nat>,
                       canonical: Option<Hash>, p: Payment)
    returns (r: Option<Fate>)
    requires |tipClaims| == |tip| && |finalClaims| == |final|
    ensures r.Some? && r.value.Found? && r.value.search.AtBlock? ==>
              IsAt(tip, p, r.value.search.at) || IsAt(final, p, r.value.search.at)
    ensures
      Truthful(tip, tipClaims) && Truthful(final, finalClaims) && Lawful(tip, p) && Lawful(final, p)
      && (p.birth.height < |final| ==> canonical == Some(final[p.birth.height].hash))
      ==>
        r.Some? && RightFate(tip, final, p, r.value)
  {
    var found := FindInclusion(tip, tipClaims, p);
    if found != Pending {
      return Some(Found(found));
    }
    if TipHeight(final) >= p.birth.height {
      if canonical.None? {
        return None;
      }
      if canonical.value != p.birth.hash {
        return Some(DeadBirth);
      }
    }
    if TipHeight(final) > p.birth.height + ERA_PERIOD {
      if finalClaims[TipHeight(final)] <= p.nonce {
        EraEndedForGood(final, p);
        return Some(EraEnded);
      }
      found := FindInclusion(final, finalClaims, p);
      return Some(Found(found));
    }
    return Some(Found(Pending));
  }

  /** Once the final chain is past the era with the nonce unused, the payment's blocks are all behind it. */
  lemma EraEndedForGood(final: Chain, p: Payment)
    ensures TipHeight(final) > p.birth.height + ERA_PERIOD && final[TipHeight(final)].nonce <= p.nonce
            ==> NeverIncluded(final, p)
  {
    if TipHeight(final) > p.birth.height + ERA_PERIOD && final[TipHeight(final)].nonce <= p.nonce {
      forall later: Chain | final <= later && Lawful(later, p)
        ensures !OnChain(later, p)
      {
        assert later[TipHeight(final)] == final[TipHeight(final)];
      }
    }
  }
}
