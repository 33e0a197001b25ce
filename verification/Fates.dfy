/** What a session makes of the chain's word on the payment it released (P2). */
module Fates {
  import opened MintTypes
  import opened SpendAccounting
  import opened StoredLedger
  import opened LedgerSoundness
  import opened SessionMachine
  import ChainSearch

  datatype Followed = Recorded | Waiting | Gone(reason: EndReason)

  /** The fate of a payment no block can hold any more. */
  function RuledOut(fate: ChainSearch.Fate): Status {
    if fate.Found? then Replaced else if fate.DeadBirth? then Dead else Expired
  }

  /** P2, as the record after it: every recorded inclusion must be kept, and the position in the era window. */
  function FollowedRecord(rec: Record, kept: bool, fate: ChainSearch.Fate): Record
    requires rec.attempts != []
  {
    if !kept || fate == ChainSearch.Found(ChainSearch.Unprovable) then DoubtOpen(rec)
    else if fate.Found? && fate.search.AtBlock? then
      if InWindow(LastOf(rec), fate.search.at)
      then WithLast(rec, LastOf(rec).(status := Included, inclusion := Some(fate.search.at))) else rec
    else if fate.Found? && fate.search.Pending? then rec
    else
      var s := WithLast(rec, LastOf(rec).(status := RuledOut(fate)));
      if fate.DeadBirth? then DoubtOpen(s) else s
  }

  function FollowedTo(rec: Record, kept: bool, fate: ChainSearch.Fate): Followed
    requires rec.attempts != []
  {
    if !kept || fate == ChainSearch.Found(ChainSearch.Unprovable) then Gone(EndReason.Reorg)
    else if fate.Found? && fate.search.AtBlock? then
      if InWindow(LastOf(rec), fate.search.at) then Recorded else Gone(Unverified)
    else if fate.Found? && fate.search.Pending? then Waiting
    else Gone(ReasonOf(RuledOut(fate)))
  }

  /** Every inclusion that is not final is in doubt, and nothing else changed. */
  ghost predicate OpenDoubted(r: Record, s: Record) {
    && |s.attempts| == |r.attempts| && s == r.(attempts := s.attempts, reorganized := s.reorganized)
    && forall i :: 0 <= i < |r.attempts| ==>
         var a, b := r.attempts[i], s.attempts[i];
         b == a.(doubt := b.doubt) && (b.doubt <==> a.doubt || (a.inclusion.Some? && !a.finalized))
  }

  /** Each answer has its own end and its own record: found in its era it is included there; past it, nothing is
      recorded; a spent nonce, an era that ended and a birth block that is gone rule the payment out; and only what
      shows another branch doubts what is not final. */
  lemma FollowingMeans(rec: Record, kept: bool, fate: ChainSearch.Fate)
    requires rec.attempts != []
    ensures
      var last, s, to := LastOf(rec), FollowedRecord(rec, kept, fate), FollowedTo(rec, kept, fate);
      var found := kept && fate.Found? && fate.search.AtBlock?;
      var inEra := found && last.birth.height < fate.search.at.height <= last.birth.height + 255;
      && (to == Recorded <==> inEra)
      && (inEra ==> s == WithLast(rec, last.(status := Included, inclusion := Some(fate.search.at))))
      && (to == Waiting <==> kept && fate == ChainSearch.Found(ChainSearch.Pending))
      && (to == Gone(AccountActivity) <==> kept && fate == ChainSearch.Found(ChainSearch.NonceTaken))
      && (to == Gone(AccountActivity) ==> s == WithLast(rec, last.(status := Replaced)))
      && (to == Gone(Unverified) <==> (found && !inEra) || (kept && fate.EraEnded?))
      && (kept && fate.EraEnded? ==> s == WithLast(rec, last.(status := Expired)))
      && (to == Waiting || (found && !inEra) ==> s == rec)
      && (to == Gone(EndReason.Reorg)
          <==> !kept || fate.DeadBirth? || fate == ChainSearch.Found(ChainSearch.Unprovable))
      && (to == Gone(EndReason.Reorg) ==>
            OpenDoubted(if kept && fate.DeadBirth? then WithLast(rec, last.(status := Dead)) else rec, s))
  {
    DoubtOpenMeans(rec);
    DoubtOpenMeans(WithLast(rec, LastOf(rec).(status := Dead)));
  }

  lemma StatusShowsTheFate(rec: Record, kept: bool, fate: ChainSearch.Fate)
    requires rec.attempts != [] && LastOf(rec).status in {Sent, Uncertain}
    ensures
      var last := LastOf(FollowedRecord(rec, kept, fate));
      match last.status
      case Included => last.inclusion.Some? && fate == ChainSearch.Found(ChainSearch.AtBlock(last.inclusion.value))
      case Replaced => fate == ChainSearch.Found(ChainSearch.NonceTaken)
      case Dead => fate.DeadBirth?
      case Expired => fate.EraEnded?
      case other => other == LastOf(rec).status
  {
    DoubtOpenMeans(rec);
    DoubtOpenMeans(WithLast(rec, LastOf(rec).(status := Dead)));
  }

  /** What the chain search asks about the payment. */
  function Sought(a: Attempt): ChainSearch.Payment
    requires a.hash.Some?
  {
    ChainSearch.Payment(a.hash.value, a.nonce, a.birth)
  }

  /** The payment's nonce was spent on the chain, and not by the payment. */
  ghost predicate SpentByAnother(c: ChainSearch.Chain, p: ChainSearch.Payment) {
    c[|c| - 1].nonce > p.nonce && !ChainSearch.OnChain(c, p)
  }

  /** On answers that are right, a session gives its payment a place only where the chain has it, blames other activity
      only for a nonce that another transaction spent, and rules the payment out, as dead with its birth block or as
      expired, only when no block will ever hold it. */
  lemma FateTells(rec: Record, kept: bool, fate: ChainSearch.Fate, tip: ChainSearch.Chain, final: ChainSearch.Chain)
    requires rec.attempts != [] && LastOf(rec).hash.Some? && LastOf(rec).status in {Sent, Uncertain}
    requires ChainSearch.RightFate(tip, final, Sought(LastOf(rec)), fate)
    ensures
      var p, s := Sought(LastOf(rec)), FollowedRecord(rec, kept, fate);
      var status := LastOf(s).status;
      && (status == Included ==>
            && LastOf(s).inclusion.Some?
            && (ChainSearch.IsAt(tip, p, LastOf(s).inclusion.value)
                || ChainSearch.IsAt(final, p, LastOf(s).inclusion.value)))
      && (status == Replaced ==> SpentByAnother(tip, p) || SpentByAnother(final, p))
      && (status == Dead ==> ChainSearch.NeverIncluded(final, p)
                             && |final| > p.birth.height && final[p.birth.height].hash != p.birth.hash)
      && (status == Expired ==> ChainSearch.NeverIncluded(final, p)
                                && |final| > p.birth.height && final[p.birth.height].hash == p.birth.hash)
      && (status !in {Included, Replaced, Dead, Expired} ==> status == LastOf(rec).status)
  {
    StatusShowsTheFate(rec, kept, fate);
  }
}
