/** The controller of one mint session: each of its methods only takes steps of the session machine. */
module SessionController {
  import opened MintTypes
  import opened SpendAccounting
  import opened StoredLedger
  import opened LedgerSoundness
  import opened SpendWorld
  import opened Classification
  import opened HistoryResolution
  import opened SessionMachine
  import opened SessionSafety
  import opened SessionSteps
  import opened SessionReleases
  import opened SessionGuarantees
  import ChainSearch
  import opened Fates
  import FinalityChecks
  import Verdicts
  import SessionSnapshots
  import SnapshotMeaning

  /** What the rest of the wallet, history and the browser may do while the controller awaits. */
  predicate Environmental(e: Event) {
    e.Stop? || e.Tick? || e.WriteDone? || e.Save? || e.History? || e.OtherLine? || e.OtherStatus? || e.ResolveHistory?
  }

  function Pending(wait: Wait): nat {
    if wait.Queued? then wait.place + 1 else 0
  }

  /** What the controller finds after an await: a running record as it left it, every stop still there, */
  ghost predicate Awaited(s: State, t: State) {
    && t.phase == s.phase && t.refresh == s.refresh && t.signed == s.signed && t.calls == s.calls
    && (!s.rec.ended ==> t.rec == s.rec) && OnlyResolves(s.rec, t.rec)
    && (s.stop.Some? ==> t.stop == s.stop)
    && Pending(t.wait) <= Pending(s.wait)
    && (!s.wait.Queued? ==> t.wait == s.wait) && (t.wait == NoWait ==> s.wait == NoWait)
  }

  lemma NothingResolved(rec: Record)
    ensures OnlyResolves(rec, rec)
  {
  }

  lemma WritesMove(s: State, e: Event)
    requires (e.Stop? || e.Tick? || e.WriteDone? || e.Save?) && Enabled(s, e)
    ensures Awaited(s, Apply(s, e))
  {
    NothingResolved(s.rec);
  }

  lemma LinesMove(s: State, e: Event)
    requires (e.History? || e.OtherLine? || e.OtherStatus?) && Enabled(s, e)
    ensures Awaited(s, Apply(s, e))
  {
    NothingResolved(s.rec);
  }

  lemma RecordMoves(s: State, rec: Record)
    requires OnlyResolves(s.rec, rec) && (!s.rec.ended ==> rec == s.rec)
    ensures Awaited(s, s.(rec := rec))
  {
  }

  lemma EnvironmentMoves(s: State, e: Event)
    requires Environmental(e) && Enabled(s, e)
    ensures Awaited(s, Apply(s, e))
  {
    if e.ResolveHistory? {
      ResolutionAddsNothing(s.rec, s.lines);
      RecordMoves(s, Resolve(s.rec, s.lines));
    } else if e.History? || e.OtherLine? || e.OtherStatus? {
      LinesMove(s, e);
    } else {
      WritesMove(s, e);
    }
  }

  lemma EnvironmentTruthful(w: World, s: State, e: Event)
    requires Environmental(e) && (e.OtherLine? ==> !HasLine(s.lines, e.entry.hash))
    ensures Truthful(w, s, e)
  {
  }

  lemma AwaitedTwice(s: State, t: State, u: State)
    requires Awaited(s, t) && Awaited(t, u)
    ensures Awaited(s, u)
  {
    ResolvesTwice(s.rec, t.rec, u.rec);
  }

  /** A payment the session released keeps its number in `released`. */
  ghost predicate Released(rec: Record, calls: seq<Hash>, released: set<nat>) {
    && (forall n <- released :: n <= |rec.attempts|)
    && (rec.attempts != [] ==>
          (LastOf(rec).n in released <==> LastOf(rec).hash.Some? && LastOf(rec).hash.value in calls))
  }

  lemma ReleasedStays(r: Record, s: Record, calls: seq<Hash>, released: set<nat>)
    requires Released(r, calls, released) && OnlyResolves(r, s)
    ensures Released(s, calls, released)
  {
    if r.attempts != [] {
      assert AttemptResolves(LastOf(r), LastOf(s));
    }
  }

  function WhileReserving(s: State, a: Attempt): State {
    Persist(s.(rec := WithReservation(s.rec, a), phase := Reserving))
  }

  lemma AdmittedIsFresh(rec: Record, e: Event)
    requires e.Admit? && Admitting(rec, e).Reserve?
    ensures Admitting(rec, e).attempt.n == |rec.attempts| + 1 && Admitting(rec, e).attempt.hash.None?
  {
  }

  lemma AdmissionReserves(w: World, s: State, e: Event, a: Attempt)
    requires Reachable(w, s) && e.Admit? && Enabled(s, e) && Truthful(w, s, e)
    requires Admitting(s.rec, e) == Decision.Reserve(a)
    ensures Reachable(w, WhileReserving(s, a))
  {
    assert Apply(s, e) == WhileReserving(s, a);
    Stepped(w, s, e);
  }

  lemma ReservedIsUnreleased(rec: Record, a: Attempt, calls: seq<Hash>, released: set<nat>)
    requires Released(rec, calls, released) && a.n == |rec.attempts| + 1 && a.hash.None?
    ensures Released(WithReservation(rec, a), calls, released)
  {
  }

  lemma SignedIsUnreleased(w: World, s: State, hash: Hash, released: set<nat>)
    requires Reachable(w, s) && CanSign(s) && hash !in s.calls && Released(s.rec, s.calls, released)
    ensures Released(Signing(s, hash).rec, s.calls, released)
  {
    UnlockingIsUnsigned(w, s);
  }

  lemma ReservedIsNotReleased(rec: Record, hash: Hash)
    requires DistinctHashes(rec.attempts) && RecordCommits(rec, hash)
    requires rec.attempts != [] && LastOf(rec).status == Reserved
    ensures LastOf(rec).hash != Some(hash)
  {
    var i := AttemptOf(rec, hash);
  }

  lemma UnlockingIsUnsigned(w: World, s: State)
    requires Reachable(w, s) && s.phase == Unlocking
    ensures s.rec.attempts != [] && LastOf(s.rec).status == Reserved && !s.rec.ended
    ensures LastOf(s.rec).hash.None? || LastOf(s.rec).hash.value !in s.calls
  {
    var home := ReachableKeeps(w, s);
    HashesAreDistinct(w, s.rec);
    if LastOf(s.rec).hash.Some? && LastOf(s.rec).hash.value in s.calls {
      ReservedIsNotReleased(s.rec, LastOf(s.rec).hash.value);
    }
  }

  lemma HandedOverIsReleased(w: World, s: State, released: set<nat>)
    requires Reachable(w, s) && CanRelease(s) && Released(s.rec, s.calls, released)
    ensures Released(s.rec, HandingOver(s).calls, released + {LastOf(s.rec).n})
  {
    var home := ReachableKeeps(w, s);
  }

  lemma AwaitedIsQueued(w: World, s: State)
    requires Reachable(w, s) && s.wait.Queued?
    ensures s.queue != []
  {
    var home := ReachableKeeps(w, s);
  }

  lemma SigningIsReachable(w: World, s: State, hash: Hash)
    requires Reachable(w, s) && CanSign(s) && |s.lines| < JOURNAL_CAPACITY
    requires !HasLine(s.lines, hash) && hash !in s.calls && w.birth(hash) == LastOf(s.rec).birth
    ensures Reachable(w, Signing(s, hash))
  {
    Stepped(w, s, Sign(hash));
  }

  lemma AnsweringIsReachable(w: World, s: State, acknowledged: bool)
    requires Reachable(w, s) && s.phase == Sending && HasHash(s.rec)
    ensures Reachable(w, Answering(s, acknowledged))
  {
    Stepped(w, s, Answer(acknowledged));
  }

  /** The same reservations, and only the last one changed. */
  ghost predicate OnlyLast(r: Record, s: Record) {
    r.attempts != [] && |s.attempts| == |r.attempts|
    && s.attempts[..|r.attempts| - 1] == r.attempts[..|r.attempts| - 1]
  }

  ghost predicate Withdrawn(r: Record, s: Record) {
    OnlyLast(r, s) && LastOf(s).status == Cancelled
  }

  lemma CancellingWithdraws(s: State, why: EndReason)
    requires s.rec.attempts != [] && LastOf(s.rec).status in {Reserved, Signed, Uncertain}
    requires LastOf(s.rec).hash.None? || LastOf(s.rec).hash.value !in s.calls
    ensures Withdrawn(s.rec, Cancelling(s, why).rec) && Withdrawn(s.rec, Refusing(s, why).rec)
  {
  }

  lemma PhaseOf(w: World, s: State)
    requires Reachable(w, s)
    ensures PhaseInv(s)
  {
    var home := ReachableKeeps(w, s);
  }

  /** A payment that history may have settled meanwhile, and finality or doubt reached. */
  ghost predicate Settles(a: Attempt, b: Attempt) {
    && SameOrigin(a, b) && b.hash == a.hash && (a.doubt ==> b.doubt)
    && (b.status == a.status || (IsUnresolved(a) && b.status in {Settled, Expired, Cancelled}))
    && (b.inclusion == a.inclusion || (IsUnresolved(a) && b.inclusion.None?))
  }

  /** The same payments; those of a running record only became final or doubted. */
  ghost predicate Checked(r: Record, s: Record) {
    && SameHeader(r, s) && |s.attempts| == |r.attempts| && s.ended == r.ended
    && (forall i :: 0 <= i < |r.attempts| ==> Settles(r.attempts[i], s.attempts[i]))
    && (!r.ended ==> forall i :: 0 <= i < |r.attempts| ==>
          s.attempts[i] == r.attempts[i].(finalized := s.attempts[i].finalized, doubt := s.attempts[i].doubt))
  }

  lemma CheckedAtOnce(rec: Record)
    ensures Checked(rec, rec)
  {
  }

  lemma CheckedTwice(r: Record, s: Record, t: Record)
    requires Checked(r, s) && Checked(s, t)
    ensures Checked(r, t)
  {
  }

  lemma AwaitedIsChecked(r: Record, s: Record)
    requires OnlyResolves(r, s) && (!r.ended ==> s == r)
    ensures Checked(r, s)
  {
  }

  lemma OneIsChecked(was: Record, rec: Record, k: nat, final: nat, canonical: Option<Hash>)
    requires Checked(was, rec) && k < |rec.attempts|
    ensures Checked(was, RefreshAttempt(rec, k, final, canonical))
  {
    CheckedTwice(was, rec, RefreshAttempt(rec, k, final, canonical));
  }

  /** A round that checked every payment leaves nothing to ask about. */
  lemma PassedAll(w: World, s: State)
    requires Reachable(w, s) && s.refresh.Some? && s.refresh.value.next >= |s.rec.attempts|
    ensures FinalityChecks.NothingToAsk(s.rec, s.refresh.value.final)
  {
    var home := ReachableKeeps(w, s);
  }

  /** The first `k` inclusions of `start` were checked. */
  ghost predicate CheckedUpto(start: Record, rec: Record, final: nat, answers: FinalityChecks.Answers, k: nat) {
    && k <= |start.attempts| && Checked(start, rec)
    && (!start.ended ==> rec == FinalityChecks.RefreshUpto(start, final, answers, k))
  }

  lemma OneMoreChecked(start: Record, s: Record, t: Record, final: nat, answers: FinalityChecks.Answers, k: nat)
    requires CheckedUpto(start, s, final, answers, k) && k < |start.attempts| && Checked(s, t)
    requires !s.ended ==> t == RefreshAttempt(s, k, final, answers(k))
    ensures CheckedUpto(start, t, final, answers, k + 1)
  {
    CheckedTwice(start, s, t);
    FinalityChecks.NextRefreshed(start, final, answers, k);
  }

  // ---- What a settle round may record ---------------------------------------------------------------

  /** Evidence gave `q` its verdict while it was included where it still is. */
  ghost predicate Verdicted(q: Attempt, evidence: Evidence, lotSize: nat) {
    exists x: Attempt ::
      && SameOrigin(x, q) && x.status == Included && x.inclusion == q.inclusion
      && Classify(x, evidence, lotSize) != NotVerified && q.status == VerdictOf(Classify(x, evidence, lotSize))
  }

  lemma JudgingSettles(start: Record, s: State, found: Option<Position>, evidence: Evidence)
    requires SettlesTo(start, s.rec, found, evidence) && CanJudge(s) && s.phase == Settling
    ensures
      var t := Judging(s, Classify(LastOf(s.rec), evidence, s.rec.terms.lotAmount));
      SettlesTo(start, t.rec, found, evidence) && t.phase == Settling && t.refresh == s.refresh
      && t.calls == s.calls && t.signed == s.signed
  {
    if Classify(LastOf(s.rec), evidence, s.rec.terms.lotAmount) != NotVerified {
      JudgedFurther(start, s.rec, found, evidence);
    }
  }

  /** What a settle round's verdict says is true of the chain it was read from. */
  lemma SettledVerdictTells(q: Attempt, evidence: Evidence, c: Segment, m: nat, pos: Position)
    requires Verdicted(q, evidence, c.lotSize) && Verdicts.About(c, q, m, pos, evidence, c.lotSize)
    ensures q.status in {Minted, LostRace, Failed, Anomaly} && Verdicts.Tells(q.status, c, q, m, pos)
  {
    var x: Attempt :|
      && SameOrigin(x, q) && x.status == Included && x.inclusion == q.inclusion
      && Classify(x, evidence, c.lotSize) != NotVerified && q.status == VerdictOf(Classify(x, evidence, c.lotSize));
    Verdicts.SameWitness(evidence.view, c, q, x);
    Verdicts.SameWitness(evidence.x, c, q, x);
    Verdicts.SameWitness(evidence.y, c, q, x);
    Verdicts.VerdictTells(x, evidence, c, m, pos);
    assert Verdicts.Tells(q.status, c, x, m, pos);
  }

  /** The followed payment `p` becomes `q`: it stays, history settles it, it is included at the position found, in its
      era, or it takes the verdict the evidence gives. */
  ghost predicate SettlesAs(p: Attempt, q: Attempt, found: Option<Position>, evidence: Evidence, lotSize: nat) {
    && SameOrigin(p, q) && q.hash == p.hash && (p.doubt ==> q.doubt)
    && (|| q.status == p.status
        || (IsUnresolved(p) && q.status in {Settled, Expired, Cancelled})
        || (p.status in {Sent, Uncertain} && q.status == Included)
        || (p.status in {Sent, Uncertain, Included} && Verdicted(q, evidence, lotSize)))
    && (q.inclusion == p.inclusion || (IsUnresolved(p) && q.inclusion.None?)
        || (p.status in {Sent, Uncertain} && q.inclusion == found && found.Some? && InWindow(p, found.value)))
  }

  /** Only the last payment is followed; the others are at most settled or doubted. */
  ghost predicate SettlesTo(r: Record, s: Record, found: Option<Position>, evidence: Evidence) {
    && SameHeader(r, s) && |s.attempts| == |r.attempts|
    && (forall i :: 0 <= i < |r.attempts| - 1 ==> Settles(r.attempts[i], s.attempts[i]))
    && (r.attempts != [] ==> SettlesAs(LastOf(r), LastOf(s), found, evidence, r.terms.lotAmount))
  }

  lemma SettlesAtOnce(r: Record, found: Option<Position>, evidence: Evidence)
    ensures SettlesTo(r, r, found, evidence)
  {
  }

  lemma SettlesFurther(p: Attempt, a: Attempt, b: Attempt, found: Option<Position>, evidence: Evidence, lotSize: nat)
    requires SettlesAs(p, a, found, evidence, lotSize) && Settles(a, b)
    ensures SettlesAs(p, b, found, evidence, lotSize)
  {
    if Verdicted(a, evidence, lotSize) && !IsUnresolved(a) {
      var x: Attempt :|
        && SameOrigin(x, a) && x.status == Included && x.inclusion == a.inclusion
        && Classify(x, evidence, lotSize) != NotVerified && a.status == VerdictOf(Classify(x, evidence, lotSize));
      assert SameOrigin(x, b) && x.inclusion == b.inclusion;
    }
  }

  lemma CheckedFurther(r: Record, s: Record, t: Record, found: Option<Position>, evidence: Evidence)
    requires SettlesTo(r, s, found, evidence) && Checked(s, t)
    ensures SettlesTo(r, t, found, evidence)
  {
    if r.attempts != [] {
      SettlesFurther(LastOf(r), LastOf(s), LastOf(t), found, evidence, r.terms.lotAmount);
    }
  }

  lemma FoundFurther(r: Record, s: Record, at: Position, evidence: Evidence)
    requires SettlesTo(r, s, Some(at), evidence) && s.attempts != [] && LastOf(s).status in {Sent, Uncertain}
    requires InWindow(LastOf(s), at)
    ensures SettlesTo(r, WithLast(s, LastOf(s).(status := Included, inclusion := Some(at))), Some(at), evidence)
  {
  }

  lemma JudgedFurther(r: Record, s: Record, found: Option<Position>, evidence: Evidence)
    requires SettlesTo(r, s, found, evidence) && s.attempts != [] && LastOf(s).status == Included
    requires Classify(LastOf(s), evidence, s.terms.lotAmount) != NotVerified
    ensures
      var o := Classify(LastOf(s), evidence, s.terms.lotAmount);
      SettlesTo(r, WithLast(s, LastOf(s).(status := VerdictOf(o))), found, evidence)
  {
    var o := Classify(LastOf(s), evidence, s.terms.lotAmount);
    var q := LastOf(s).(status := VerdictOf(o));
    assert SameOrigin(LastOf(s), q) && LastOf(s).inclusion == q.inclusion;
  }

  /** How a read or a pass fails: the next pass tries again, or the session ends. */
  datatype Failure = TryAgain | Exit(reason: EndReason)

  /** What a pass reads: the chain below the attested block `view`, the one below the inclusion block, the views
      attested there, the account and the prepared payment, and what the attestation budget leaves. */
  datatype Reads = Reads(
    chain: ChainSearch.Chain,
    view: AttestedAsset,
    inclusionChain: ChainSearch.Chain,
    x: Option<AttestedAsset>,
    y: Option<AttestedAsset>,
    account: Account,
    quote: Quote,
    budget: nat)

  ghost predicate Honest(w: World, a: Reads) {
    && ProvenIn(w, a.chain) && ProvenIn(w, a.inclusionChain)
    && a.chain[|a.chain| - 1].hash == a.view.block.hash && |a.chain| == a.view.block.height + 1
    && a.view.held == w.held(a.view.block.hash)
  }

  /** What the settle task classifies from: the views at the inclusion block and its parent. */
  function EvidenceOf(a: Reads): Evidence {
    Evidence(a.inclusionChain, None, a.x, a.y)
  }

  function AdmitOf(a: Reads, clock: int, unlockDeadline: int): Event {
    Admit(a.chain, a.view, a.account, a.quote, clock, unlockDeadline, a.budget)
  }

  /** P5: the lineage of every recorded inclusion, and the previous payment's nonce used, at `view`. */
  predicate LineageHolds(rec: Record, a: Reads)
    requires rec.attempts != []
  {
    ChainSearch.ProveLineage(a.chain, Inclusions(rec.attempts), a.account.nonce, LastOf(rec).nonce).Some?
  }

  /** At most one payment more was handed to the transport. */
  ghost predicate OneMore(before: seq<Hash>, after: seq<Hash>) {
    before <= after && |after| <= |before| + 1
  }

  /** The last payment took a verdict that admits a successor. */
  ghost predicate Judged(r: Record, s: Record) {
    && r.attempts != [] && s.attempts != []
    && s == WithLast(r, LastOf(r).(status := LastOf(s).status)) && AdmitsSuccessor(LastOf(s).status)
  }

  lemma PassingKeepsJudging(s: State, o: Outcome)
    requires CanJudge(s) && s.phase == Passing
    ensures if o in {Won, Lost} then Judging(s, o).phase == Passing && Judged(s.rec, Judging(s, o).rec)
            else Judging(s, o).phase.Ending?
  {
  }

  lemma LineageStays(r: Record, s: Record, a: Reads)
    requires Judged(r, s) && LineageHolds(r, a)
    ensures LineageHolds(s, a)
  {
    var k := |r.attempts| - 1;
    assert s.attempts[..k] == r.attempts[..k];
  }

  class MintSessionController {
    const world: World
    const unlockDeadline: int
    var record: Record
    var transactions: seq<Line>
    var stored: Snap
    var writes: seq<Snap>
    var awaited: Wait
    var phase: Phase
    var finality: Option<Refresh>
    var stopWith: Option<EndReason>
    var now: int
    var signedFor: seq<nat>
    var calls: seq<Hash>
    var released: set<nat>
    var soldOut: bool

    function View(): State
      reads this
    {
      State(record, transactions, stored, writes, awaited, phase, finality, stopWith, now, signedFor, calls)
    }

    ghost predicate Valid()
      reads this
    {
      Reachable(world, View()) && Released(record, calls, released)
    }

    /** The record is new, unsigned and already in storage. */
    constructor (world: World, record: Record, transactions: seq<Line>, unlockDeadline: int, now: int)
      requires SessionSnapshots.TermsOk(record.terms) && record.attempts == [] && record.used == 0
      requires !record.ended && record.reason.None? && record.endedAt.None? && !record.reorganized
      ensures Valid() && this.world == world && this.record == record && this.transactions == transactions
      ensures phase == Passing && calls == [] && signedFor == []
    {
      this.world, this.unlockDeadline := world, unlockDeadline;
      this.record, this.transactions := record, transactions;
      stored, writes, awaited := Snap(record, transactions), [], NoWait;
      phase, finality, stopWith, this.now := Passing, None, None, now;
      signedFor, calls, released, soldOut := [], [], {}, false;
      new;
      assert Init(View()) && SessionMachine.Run(world, View(), [], View());
    }

    // ---- Awaiting -----------------------------------------------------------------------------------

    /** What an await found. */
    method Resume(t: State)
      requires Valid() && Reachable(world, t) && Awaited(View(), t)
      modifies this
      ensures Valid() && View() == t && released == old(released)
    {
      ReleasedStays(record, t.rec, calls, released);
      record, transactions, stored, writes, awaited := t.rec, t.lines, t.disk, t.queue, t.wait;
      stopWith, now := t.stop, t.now;
    }

    /** One environment step. */
    method Interfere(e: Event)
      requires Valid() && Environmental(e) && Enabled(View(), e)
      requires e.OtherLine? ==> !HasLine(transactions, e.entry.hash)
      modifies this
      ensures Valid() && View() == Apply(old(View()), e) && Awaited(old(View()), View())
    {
      EnvironmentMoves(View(), e);
      EnvironmentTruthful(world, View(), e);
      Stepped(world, View(), e);
      Resume(Apply(View(), e));
    }

    /** Any number of environment steps, in any order. */
    method Await()
      requires Valid()
      modifies this
      ensures Valid() && Awaited(old(View()), View())
    {
      NothingResolved(record);
      var steps: nat := *;
      while steps > 0
        invariant Valid() && Awaited(old(View()), View())
      {
        var e: Event := *;
        if Environmental(e) && Enabled(View(), e)
           && (e.OtherLine? ==> !HasLine(transactions, e.entry.hash)) {
          ghost var before := View();
          Interfere(e);
          AwaitedTwice(old(View()), before, View());
        }
        steps := steps - 1;
      }
    }

    /** `await persist()`: the write settles after those before it. */
    method AwaitWrite() returns (saved: bool)
      requires Valid() && awaited != NoWait
      modifies this
      ensures Valid() && Awaited(old(View()), View())
      ensures awaited == if saved then Saved else NotSaved
    {
      Await();
      while awaited.Queued?
        invariant Valid() && Awaited(old(View()), View())
        decreases Pending(awaited)
      {
        AwaitedIsQueued(world, View());
        ghost var before := View();
        var ok: bool, landed: bool := *, *;
        Interfere(WriteDone(ok, landed));
        ghost var between := View();
        AwaitedTwice(old(View()), before, between);
        Await();
        AwaitedTwice(old(View()), between, View());
      }
      saved := awaited == Saved;
    }

    // ---- Authority ----------------------------------------------------------------------------------

    /** The first reason wins. */
    method Stop(reason: EndReason)
      requires Valid()
      modifies this`stopWith
      ensures Valid() && stopWith == if old(stopWith).Some? then old(stopWith) else Some(reason)
    {
      if stopWith.None? {
        Stepped(world, View(), SessionMachine.Stop(reason));
        stopWith := Some(reason);
      }
    }

    /** Why signing must stop, or none: then nothing stopped the session and its deadline is ahead. */
    method Authority() returns (lost: Option<EndReason>)
      requires Valid()
      modifies this`stopWith
      ensures Valid() && lost == stopWith && (old(stopWith).Some? ==> stopWith == old(stopWith))
      ensures lost.None? ==> stopWith.None? && now < record.deadline
    {
      if stopWith.None? {
        var gone: bool, why: EndReason := *, *;
        if gone {
          Stop(why);
        } else if now >= record.deadline {
          Stop(DeadlineReason(record, unlockDeadline));
        }
      }
      lost := stopWith;
    }

    // ---- Reservation to release (P10-P15) -----------------------------------------------------------

    /** What inspecting the signed bytes must show: the era of the reserved birth block, and (as no two
        signatures hash alike) a hash nobody has signed before. */
    predicate Fresh(hash: Hash)
      reads this
    {
      && record.attempts != [] && world.birth(hash) == LastOf(record).birth
      && !HasLine(transactions, hash) && hash !in calls
    }

    /** Withdraws the last attempt, and its history entry, unless the transport was given it. */
    method CancelAttempt()
      requires Released(record, calls, released)
      modifies this`record, this`transactions
      ensures record == CancelLast(old(View())).rec && transactions == CancelLast(old(View())).lines
      ensures Released(record, calls, released)
    {
      if record.attempts != [] {
        var a := LastOf(record);
        if a.n !in released && a.status in {Reserved, Signed, Uncertain} {
          record := WithLast(record, a.(status := Cancelled));
          if a.hash.Some? {
            transactions := SetStatus(transactions, a.hash.value, CancelledBeforeBroadcast);
          }
        }
      }
    }

    method Abandon(why: EndReason)
      requires Valid() && CanCancel(View())
      modifies this
      ensures Valid() && View() == Cancelling(old(View()), why)
    {
      ghost var t := Cancelling(View(), why);
      Stepped(world, View(), SessionMachine.Cancel(why));
      CancelAttempt();
      awaited, phase := NoWait, Ending(why);
      assert View() == t;
    }

    /** P10: the reservation enters the ledger and its save begins. */
    method Reserve(a: Attempt)
      requires Valid() && Reachable(world, WhileReserving(View(), a))
      requires a.n == |record.attempts| + 1 && a.hash.None?
      modifies this
      ensures Valid() && View() == WhileReserving(old(View()), a)
    {
      ReservedIsUnreleased(record, a, calls, released);
      ghost var t := WhileReserving(View(), a);
      record := WithReservation(record, a);
      phase, awaited := Reserving, Queued(|writes|);
      writes := writes + [Snap(record, transactions)];
      assert View() == t;
    }

    method ReservationCounted()
      requires Valid() && phase == Reserving && awaited == Saved
      modifies this
      ensures Valid() && View() == old(View()).(wait := NoWait, phase := Unlocking)
    {
      ghost var t := View().(wait := NoWait, phase := Unlocking);
      Stepped(world, View(), AfterReserve);
      awaited, phase := NoWait, Unlocking;
      assert View() == t;
    }

    method ReservationLost()
      requires Valid() && phase == Reserving && awaited == NotSaved
      modifies this
      ensures Valid() && View() == Cancelling(old(View()), Unavailable)
    {
      ghost var t := Cancelling(View(), Unavailable);
      Stepped(world, View(), AfterReserve);
      CancelAttempt();
      awaited, phase := NoWait, Ending(Unavailable);
      assert View() == t;
    }

    /** P11, P12: the secret signed, but what it signed is refused or cannot be journaled. */
    method Refuse(why: EndReason)
      requires Valid() && CanSign(View())
      modifies this
      ensures Valid() && View() == Refusing(old(View()), why)
    {
      ghost var t := Refusing(View(), why);
      Stepped(world, View(), RefuseSignature(why));
      signedFor := signedFor + [LastOf(record).n];
      CancelAttempt();
      phase := Ending(why);
      assert View() == t;
    }

    /** P13: the hash and its history entry, together. */
    method AddSigned(hash: Hash)
      requires Valid() && CanSign(View()) && |transactions| < JOURNAL_CAPACITY && Fresh(hash)
      modifies this
      ensures Valid() && View() == Signing(old(View()), hash)
    {
      ghost var t := Signing(View(), hash);
      SigningIsReachable(world, View(), hash);
      var a := LastOf(record);
      SignedIsUnreleased(world, View(), hash, released);
      transactions := [NewLine(record, a, hash)] + transactions;
      record := WithLast(record, a.(status := Signed, hash := Some(hash)));
      signedFor, phase, awaited := signedFor + [a.n], SavingHash, Queued(|writes|);
      writes := writes + [Snap(record, transactions)];
      assert View() == t;
    }

    /** P14: uncertainty, before the bytes leave. */
    method MarkUncertain()
      requires Valid() && CanMarkUncertain(View())
      modifies this
      ensures Valid() && View() == MarkingUncertain(old(View()))
    {
      ghost var t := MarkingUncertain(View());
      Stepped(world, View(), AfterHash);
      var a := LastOf(record);
      record := WithLast(record, a.(status := Uncertain));
      transactions := SetStatus(transactions, a.hash.value, BroadcastUncertain);
      phase, awaited := SavingUncertain, Queued(|writes|);
      writes := writes + [Snap(record, transactions)];
      assert View() == t;
    }

    method HandOver()
      requires Valid() && CanRelease(View())
      modifies this
      ensures Valid() && View() == HandingOver(old(View()))
    {
      ghost var t := HandingOver(View());
      HandedOverIsReleased(world, View(), released);
      Stepped(world, View(), Release);
      released := released + {LastOf(record).n};
      calls := calls + [LastOf(record).hash.value];
      awaited, phase := NoWait, Sending;
      assert View() == t;
    }

    /** P15. */
    method RecordAnswer(acknowledged: bool)
      requires Valid() && phase == Sending && HasHash(record)
      modifies this
      ensures Valid() && View() == Answering(old(View()), acknowledged)
    {
      ghost var t := Answering(View(), acknowledged);
      AnsweringIsReachable(world, View(), acknowledged);
      var a := LastOf(record);
      record := WithLast(record, a.(status := if acknowledged then Sent else Uncertain));
      transactions := SetStatus(transactions, a.hash.value, if acknowledged then Submitted else BroadcastUncertain);
      writes, phase := writes + [Snap(record, transactions)], Passing;
      assert View() == t;
    }

    /** P11: unlocks; no await stands between the last check and the signature. */
    method Unlock() returns (lost: Option<EndReason>)
      requires Valid() && phase == Unlocking && !record.ended
      modifies this
      ensures Valid() && phase == Unlocking
      ensures record == old(record) && calls == old(calls)
      ensures lost.None? ==> Authorized(View())
    {
      lost := Authority();
      if lost.None? {
        Await();
        var unlocked: bool, expired: bool := *, *;
        lost := Authority();
        if lost.None? && !unlocked {
          lost := Some(Unverified);
        }
        if lost.None? && expired {
          lost := Some(Unavailable);
        }
      }
    }

    /** The awaited write is durable and authority still stands, or why not. */
    method Written() returns (lost: Option<EndReason>)
      requires Valid() && awaited != NoWait && !record.ended
      modifies this
      ensures Valid() && phase == old(phase) && record == old(record) && calls == old(calls)
      ensures awaited in {Saved, NotSaved}
      ensures lost.None? ==> awaited == Saved && Authorized(View())
    {
      var saved := AwaitWrite();
      if saved {
        lost := Authority();
      } else {
        lost := Some(Unavailable);
      }
    }

    /** P11-P12: unlocks, signs, and inspects what was signed. */
    method SignReservation() returns (why: Option<EndReason>)
      requires Valid() && phase == Unlocking
      modifies this
      ensures Valid() && calls == old(calls) && OnlyLast(old(record), record)
      ensures why.Some? ==> phase == Ending(why.value) && LastOf(record).status == Cancelled
      ensures why.None? ==>
                && phase == SavingHash && awaited != NoWait && !record.ended
                && LastOf(record).status == Signed && LastOf(record).hash.Some? && LastOf(record).hash.value !in calls
    {
      UnlockingIsUnsigned(world, View());
      why := Unlock();
      if why.Some? {
        CancellingWithdraws(View(), why.value);
        Abandon(why.value);
        return;
      }
      var hash: Hash, asReviewed: bool := *, *;
      if !asReviewed || !Fresh(hash) {
        why := Some(Unverified);
      } else if |transactions| >= JOURNAL_CAPACITY {
        why := Some(Capacity);
      }
      if why.Some? {
        CancellingWithdraws(View(), why.value);
        Refuse(why.value);
        return;
      }
      AddSigned(hash);
    }

    /** P13-P14: the hash, then uncertainty, made durable. */
    method Secure() returns (why: Option<EndReason>)
      requires Valid() && phase == SavingHash && awaited != NoWait && !record.ended && record.attempts != []
      requires LastOf(record).status == Signed && LastOf(record).hash.Some? && LastOf(record).hash.value !in calls
      modifies this
      ensures Valid() && calls == old(calls) && OnlyLast(old(record), record)
      ensures why.Some? ==> phase == Ending(why.value) && LastOf(record).status == Cancelled
      ensures why.None? ==> CanRelease(View())
    {
      why := Written();
      if why.None? {
        MarkUncertain();
        why := Written();
      }
      if why.Some? {
        CancellingWithdraws(View(), why.value);
        Abandon(why.value);
      }
    }

    /** P15: the bytes leave; whatever the transport answers is recorded. */
    method Transmit()
      requires Valid() && CanRelease(View())
      modifies this
      ensures Valid() && phase == Passing && calls == old(calls) + [LastOf(old(record)).hash.value]
      ensures OnlyLast(old(record), record) && !record.ended && finality.None?
      ensures LastOf(record).hash == LastOf(old(record)).hash && LastOf(record).status in {Sent, Uncertain}
    {
      PhaseOf(world, View());
      HandOver();
      Await();
      AwaitAnswer();
    }

    method AwaitAnswer()
      requires Valid() && phase == Sending && HasHash(record) && !record.ended && finality.None?
      modifies this
      ensures Valid() && phase == Passing && calls == old(calls)
      ensures OnlyLast(old(record), record) && !record.ended && finality.None?
      ensures LastOf(record).hash == LastOf(old(record)).hash && LastOf(record).status in {Sent, Uncertain}
    {
      var acknowledged: bool := *;
      RecordAnswer(acknowledged);
      Await();
    }

    /** P11-P15: signs and hands over the reserved payment, or cancels it: a payment that was not handed over
        ends the session and stays withdrawn. */
    method Sign() returns (why: Option<EndReason>)
      requires Valid() && phase == Unlocking
      modifies this
      ensures Valid() && OnlyLast(old(record), record)
      ensures why.Some? ==> phase == Ending(why.value) && calls == old(calls) && LastOf(record).status == Cancelled
      ensures why.None? ==>
                && phase == Passing && !record.ended && finality.None?
                && LastOf(record).hash.Some? && LastOf(record).status in {Sent, Uncertain}
                && calls == old(calls) + [LastOf(record).hash.value]
    {
      why := SignReservation();
      if why.None? {
        why := Secure();
        if why.None? {
          Transmit();
        }
      }
    }

    // ---- Passes (P1-P9) -----------------------------------------------------------------------------

    ghost predicate Steady()
      reads this
    {
      Valid() && Idle(View()) && phase == Passing && !record.ended
    }

    method Leave(why: EndReason)
      requires Valid() && phase == Passing
      modifies this
      ensures Valid() && View() == old(View()).(phase := Ending(why), refresh := None)
    {
      ghost var t := View().(phase := Ending(why), refresh := None);
      Stepped(world, View(), Quit(why));
      phase, finality := Ending(why), None;
      assert View() == t;
    }

    /** `reorg`: doubts every open inclusion and ends the session. */
    method Reorg()
      requires Steady()
      modifies this
      ensures Valid() && View() == LosingChain(old(View()))
    {
      ghost var t := LosingChain(View());
      Stepped(world, View(), LoseChain);
      record, phase := DoubtOpen(record), Ending(EndReason.Reorg);
      assert View() == t;
    }

    /** A wallet read, raced against the stop: none when it succeeded. */
    method Read() returns (failed: Option<Failure>)
      requires Valid() && !record.ended
      modifies this
      ensures Valid() && Awaited(old(View()), View())
    {
      ghost var before := View();
      var lost := Authority();
      NothingResolved(record);
      ghost var between := View();
      assert Awaited(before, between);
      if lost.Some? {
        return Some(Exit(lost.value));
      }
      Await();
      AwaitedTwice(before, between, View());
      if stopWith.Some? {
        return Some(Exit(stopWith.value));
      }
      var answered: bool, terminal: bool, why: EndReason := *, *, *;
      failed := if answered then None else if terminal then Some(Exit(why)) else Some(TryAgain);
    }

    /** P2: the position found is recorded and saved. */
    method RecordInclusion(at: Position)
      requires Valid() && CanFollow(View()) && InWindow(LastOf(record), at)
      modifies this
      ensures Valid() && View() == Following(old(View()), at)
    {
      ghost var t := Following(View(), at);
      Stepped(world, View(), SessionMachine.Follow(at));
      record := WithLast(record, LastOf(record).(status := Included, inclusion := Some(at)));
      writes := writes + [Snap(record, transactions)];
      assert View() == t;
    }

    /** The payment can never be in a block. */
    method TakeFate(status: Status)
      requires Steady() && CanFollow(View()) && status in {Replaced, Dead, Expired}
      modifies this
      ensures Valid() && View() == TakingFate(old(View()), status)
    {
      ghost var t := TakingFate(View(), status);
      Stepped(world, View(), Fate(status));
      record := WithLast(record, LastOf(record).(status := status));
      if status == Dead {
        record := DoubtOpen(record);
      }
      phase := Ending(ReasonOf(status));
      assert View() == t;
    }

    /** P6: the evidence alone gives the verdict, which is saved. */
    method Judge(evidence: Evidence)
      requires Valid() && CanJudge(View()) && ProvenIn(world, evidence.chain)
      modifies this
      ensures Valid()
      ensures View() == Judging(old(View()), Classify(LastOf(old(record)), evidence, old(record).terms.lotAmount))
      ensures forall c: Segment, m: nat, pos: Position ::
                Verdicts.About(c, LastOf(old(record)), m, pos, evidence, old(record).terms.lotAmount) ==>
                  Verdicts.Tells(LastOf(record).status, c, LastOf(old(record)), m, pos)
    {
      var o := Classify(LastOf(record), evidence, record.terms.lotAmount);
      ghost var t := Judging(View(), o);
      Verdicts.JudgementTellsAll(View(), evidence);
      Stepped(world, View(), SessionMachine.Judge(evidence));
      if o != NotVerified {
        record := WithLast(record, LastOf(record).(status := VerdictOf(o)));
        writes := writes + [Snap(record, transactions)];
      }
      if phase == Passing && o !in {Won, Lost} {
        phase := Ending(if o == NotVerified then Unverified
                        else if o == Refused then PaymentFailed else PaymentAnomaly);
      }
      assert View() == t;
    }

    // ---- Finality -----------------------------------------------------------------------------------

    /** One recorded inclusion against the canonical block at its height. */
    method CheckOne(canonical: Option<Hash>)
      requires Valid() && finality.Some? && finality.value.next < |record.attempts|
      modifies this
      ensures Valid()
      ensures
        var r := old(finality).value;
        View() == old(View()).(rec := RefreshAttempt(old(record), r.next, r.final, canonical),
                               refresh := Some(Refresh(r.final, r.next + 1)))
    {
      ghost var t := Apply(View(), RefreshOne(canonical));
      Stepped(world, View(), RefreshOne(canonical));
      var k, a := finality.value.next, record.attempts[finality.value.next];
      if a.inclusion.Some? && a.inclusion.value.height <= finality.value.final && !a.finalized && !a.doubt {
        record := if canonical == Some(a.inclusion.value.hash) then MarkFinal(record, k) else DoubtFrom(record, k);
      }
      finality := Some(Refresh(finality.value.final, k + 1));
      assert View() == t;
    }

    /** A read of either task: a pass's reads are raced against the stop, the settle task's are not. */
    method Ask() returns (failed: Option<Failure>)
      requires Valid()
      modifies this
      ensures Valid() && Awaited(old(View()), View())
    {
      if !record.ended {
        failed := Read();
      } else {
        Await();
        var answered: bool := *;
        failed := if answered then None else Some(TryAgain);
      }
    }

    method StartChecking(final: nat)
      requires Valid() && (phase == Passing || phase == Settling) && finality.None?
      modifies this
      ensures Valid() && View() == old(View()).(refresh := Some(Refresh(final, 0)))
    {
      Stepped(world, View(), RefreshStart(final));
      finality := Some(Refresh(final, 0));
    }

    method StopChecking(write: bool)
      requires Valid() && finality.Some?
      modifies this
      ensures Valid() && View() == Refreshed(old(View()), write)
    {
      ghost var t := Refreshed(View(), write);
      Stepped(world, View(), RefreshStop(write));
      finality := None;
      if write {
        writes := writes + [Snap(record, transactions)];
      }
      assert View() == t;
    }

    /** The next inclusion, if it is open and should be final: it is checked again after the read, which answers
        `canonical` unless it fails. */
    method CheckNext(canonical: Option<Hash>) returns (failed: Option<Failure>, changed: bool)
      requires Valid() && finality.Some? && finality.value.next < |record.attempts|
      modifies this
      ensures Valid() && phase == old(phase) && calls == old(calls) && signedFor == old(signedFor)
      ensures Checked(old(record), record)
      ensures failed.Some? ==> finality == old(finality)
      ensures failed.None? ==> finality == Some(Refresh(old(finality).value.final, old(finality).value.next + 1))
      ensures failed.None? && !old(record).ended ==>
                record == RefreshAttempt(old(record), old(finality).value.next, old(finality).value.final, canonical)
    {
      ghost var was := record;
      CheckedAtOnce(record);
      changed := false;
      var a, final := record.attempts[finality.value.next], finality.value.final;
      if a.inclusion.Some? && a.inclusion.value.height <= final && !a.finalized && !a.doubt {
        failed := Ask();
        AwaitedIsChecked(was, record);
        if failed.Some? {
          return;
        }
        changed := record.attempts[finality.value.next] == a;
      }
      failed := None;
      OneIsChecked(was, record, finality.value.next, final, canonical);
      CheckOne(canonical);
    }

    method CheckAll(answers: FinalityChecks.Answers) returns (failed: Option<Failure>, changed: bool)
      requires Valid() && finality.Some? && finality.value.next == 0
      modifies this
      ensures Valid() && phase == old(phase) && calls == old(calls) && signedFor == old(signedFor)
      ensures Checked(old(record), record) && finality.Some?
      ensures failed.None? && !old(record).ended ==>
                record == FinalityChecks.RefreshUpto(old(record), old(finality).value.final, answers,
                                                     |old(record).attempts|)
      ensures failed.None? ==> finality == Some(Refresh(old(finality).value.final, |record.attempts|))
    {
      failed, changed := None, false;
      CheckedAtOnce(record);
      ghost var start := record;
      var k := 0;
      while k < |record.attempts|
        invariant Valid() && phase == old(phase) && calls == old(calls) && signedFor == old(signedFor)
        invariant failed.None? && finality == Some(Refresh(old(finality).value.final, k))
        invariant CheckedUpto(start, record, old(finality).value.final, answers, k)
        decreases |start.attempts| - k
      {
        ghost var before := record;
        var one: bool;
        failed, one := CheckNext(answers(k));
        if failed.Some? {
          CheckedTwice(start, before, record);
          return;
        }
        OneMoreChecked(start, before, record, old(finality).value.final, answers, k);
        changed, k := changed || one, k + 1;
      }
    }

    /** Marks what the chain that counts as final says of every inclusion, and saves it. */
    method CheckAgainst(final: nat, answers: FinalityChecks.Answers) returns (failed: Option<Failure>)
      requires Valid() && (phase == Passing || phase == Settling) && finality.None?
      modifies this
      ensures Valid() && phase == old(phase) && finality.None? && calls == old(calls) && signedFor == old(signedFor)
      ensures Checked(old(record), record)
      ensures failed.None? && !old(record).ended ==>
                record == FinalityChecks.RefreshUpto(old(record), final, answers, |old(record).attempts|)
      ensures failed.None? ==> FinalityChecks.NothingToAsk(record, final)
    {
      var changed: bool;
      StartChecking(final);
      failed, changed := CheckAll(answers);
      if failed.None? {
        PassedAll(world, View());
      }
      StopChecking(failed.None? && changed);
    }

    /** When a round is due, reads the canonical block at every open inclusion that should be final, in the order of the
        payments: each one found is final, and one that is not puts itself and every later payment in doubt. The reads
        answer `final` and `answers` unless one fails. */
    method RefreshFinality(due: bool, final: nat, answers: FinalityChecks.Answers) returns (failed: Option<Failure>)
      requires Valid() && (phase == Passing || phase == Settling) && finality.None?
      modifies this
      ensures Valid() && phase == old(phase) && finality.None? && calls == old(calls) && signedFor == old(signedFor)
      ensures Checked(old(record), record)
      ensures
        var asks := due && exists a <- old(record).attempts :: IsOpen(a) && !a.doubt;
        && (!asks ==> failed.None? && record == old(record))
        && (asks && failed.None? ==> FinalityChecks.NothingToAsk(record, final))
        && (asks && failed.None? && !old(record).ended ==>
              record == FinalityChecks.RefreshUpto(old(record), final, answers, |old(record).attempts|))
    {
      failed := None;
      CheckedAtOnce(record);
      if due && exists a <- record.attempts :: IsOpen(a) && !a.doubt {
        failed := Ask();
        ghost var asked := record;
        AwaitedIsChecked(old(record), asked);
        if failed.None? {
          failed := CheckAgainst(final, answers);
          CheckedTwice(old(record), asked, record);
        }
      }
    }

    // ---- One pass -----------------------------------------------------------------------------------

    method Fail(f: Failure) returns (why: Option<EndReason>)
      requires Steady()
      modifies this
      ensures Valid() && calls == old(calls) && record == old(record)
      ensures if f.TryAgain? then why.None? && Steady() else why == Some(f.reason) && phase == Ending(f.reason)
    {
      why := None;
      if f.Exit? {
        Leave(f.reason);
        why := Some(f.reason);
      }
    }

    /** A read of a pass: on failure the pass is over. */
    method PassRead() returns (over: bool, why: Option<EndReason>)
      requires Steady()
      modifies this
      ensures Valid() && calls == old(calls) && record == old(record)
      ensures if why.Some? then over && phase == Ending(why.value) else Steady()
    {
      var failed := Read();
      over, why := failed.Some?, None;
      if over {
        why := Fail(failed.value);
      }
    }

    /** P2: looks for the released payment, given what the chain answers; a fate that rules it out for good ends
        the session. */
    method FollowPayment(kept: bool, fate: ChainSearch.Fate) returns (answered: bool, r: Followed)
      requires Steady() && CanFollow(View())
      modifies this
      ensures Valid() && calls == old(calls)
      ensures answered ==> record == FollowedRecord(old(record), kept, fate) && r == FollowedTo(old(record), kept, fate)
      ensures !answered ==> record == old(record) && !r.Recorded?
      ensures match r
              case Recorded => Steady() && CanJudge(View())
              case Waiting => Steady()
              case Gone(why) => phase == Ending(why)
    {
      var over, why := PassRead();
      if over {
        return false, if why.Some? then Gone(why.value) else Waiting;
      }
      answered := true;
      if !kept || fate == ChainSearch.Found(ChainSearch.Unprovable) {
        Reorg();
        r := Gone(EndReason.Reorg);
      } else if fate.Found? && fate.search.AtBlock? {
        r := RecordPlace(fate.search.at);
      } else if fate.Found? && fate.search.Pending? {
        r := Waiting;
      } else {
        var status := RuledOut(fate);
        TakeFate(status);
        r := Gone(ReasonOf(status));
      }
    }

    /** A position outside the payment's era window is not recorded. */
    method RecordPlace(at: Position) returns (r: Followed)
      requires Steady() && CanFollow(View())
      modifies this
      ensures Valid() && calls == old(calls)
      ensures if InWindow(LastOf(old(record)), at)
              then r == Recorded && Steady() && CanJudge(View())
                   && record == WithLast(old(record), LastOf(old(record)).(status := Included, inclusion := Some(at)))
              else r == Gone(Unverified) && phase == Ending(Unverified) && record == old(record)
    {
      if InWindow(LastOf(record), at) {
        RecordInclusion(at);
        Await();
        r := Recorded;
      } else {
        Leave(Unverified);
        r := Gone(Unverified);
      }
    }

    /** Ends the session on the first limit reached, or on the deadline. */
    method Finish()
      requires Steady()
      modifies this
      ensures Valid() && phase.Ending? && calls == old(calls) && record == old(record)
      ensures match Limits(old(record), old(soldOut), old(now), unlockDeadline)
              case Some(limit) => phase.reason == limit
              case None => phase.reason == if old(record).deadline >= unlockDeadline then Locked else Deadline
    {
      var limit := Limits(record, soldOut, now, unlockDeadline);
      Leave(if limit.Some? then limit.value else DeadlineReason(record, unlockDeadline));
    }

    /** P6 in a pass: every verdict but Minted and LostRace ends the session. */
    method JudgeInPass(evidence: Evidence)
      requires Steady() && CanJudge(View()) && ProvenIn(world, evidence.chain)
      modifies this
      ensures Valid() && calls == old(calls)
      ensures if phase == Passing
              then Steady() && Judged(old(record), record) else phase.Ending?
    {
      PassingKeepsJudging(View(), Classify(LastOf(record), evidence, record.terms.lotAmount));
      Judge(evidence);
      if phase == Passing {
        Await();
      }
    }

    /** P8, P9 against a payment: the decision stands unless a read fails before it. `asked`: none did. */
    method NotAdmitted(d: Decision) returns (why: Option<EndReason>, asked: bool)
      requires Steady() && !d.Reserve?
      modifies this
      ensures Valid() && calls == old(calls)
      ensures if why.Some? then phase == Ending(why.value) else Steady()
      ensures asked ==>
                match d
                case Finish(reason) => why == Some(reason) && record == old(record)
                case Reorganized => why == Some(EndReason.Reorg) && record == DoubtOpen(old(record))
                case _ => why.None? && record == old(record)
      ensures !asked ==> (d.Finish? || d.Retry?) && record == old(record)
    {
      if d.Reorganized? {
        Reorg();
        return Some(EndReason.Reorg), true;
      }
      if d.AnotherPass? {
        return None, true;
      }
      var late: bool := *;   // P8 finishes without a read, P9 with
      if late || d.Retry? {
        var over: bool;
        over, why := PassRead();
        if over || d.Retry? {
          return why, !over;
        }
      }
      Leave(d.reason);
      return Some(d.reason), true;
    }

    /** P7-P15 from the attested view on: admits, reserves, signs and hands over one payment, or says why not. `asked`:
        no read failed on the way to the decision. */
    method AdmitPayment(a: Reads, admit: bool) returns (why: Option<EndReason>, asked: bool)
      requires Steady() && Honest(world, a)
      requires record.attempts != [] ==>
                 && LastOf(record).status !in {Sent, Uncertain, Included}
                 && LineageHolds(record, a)
      modifies this
      ensures Valid() && OneMore(old(calls), calls)
      ensures if why.Some? then phase == Ending(why.value) else phase == Passing && !record.ended && finality.None?
      ensures
        var limit := Limits(old(record), a.view.next.None?, old(now), unlockDeadline);
        var d := Admission(old(record), a.view, a.account, a.quote, old(now), unlockDeadline, a.budget);
        && (limit.Some? ==> why == limit && asked)
        && (calls != old(calls) ==> admit && d.Reserve?)
        && (admit && asked ==>
              match d
              case Finish(reason) => why == Some(reason) && record == old(record)
              case Reorganized => why == Some(EndReason.Reorg) && record == DoubtOpen(old(record))
              case Reserve(_) => true
              case _ => why.None? && record == old(record))
    {
      var clock := now;
      var limit := Limits(record, a.view.next.None?, clock, unlockDeadline);
      if limit.Some? {
        Leave(limit.value);
        return limit, true;
      }
      if !admit {
        Finish();
        return Some(phase.reason), false;
      }
      var d := Admission(record, a.view, a.account, a.quote, clock, unlockDeadline, a.budget);
      if !d.Reserve? {
        why, asked := NotAdmitted(d);
        return;
      }
      var over: bool;
      over, why := PassRead();
      asked := !over;
      if !over {
        why := Authority();
        if why.Some? {
          Leave(why.value);
        } else {
          why := ReserveAndSign(a, clock, d.attempt);
        }
      }
    }

    method ReserveAndSign(a: Reads, clock: int, attempt: Attempt) returns (why: Option<EndReason>)
      requires Valid() && Honest(world, a) && Enabled(View(), AdmitOf(a, clock, unlockDeadline))
      requires Admitting(record, AdmitOf(a, clock, unlockDeadline)) == Decision.Reserve(attempt)
      modifies this
      ensures Valid() && OneMore(old(calls), calls)
      ensures if why.Some? then phase == Ending(why.value) else phase == Passing && !record.ended && finality.None?
    {
      AdmittedIsFresh(record, AdmitOf(a, clock, unlockDeadline));
      AdmissionReserves(world, View(), AdmitOf(a, clock, unlockDeadline), attempt);
      Reserve(attempt);
      why := CountAndSign();
    }

    /** P10: nothing is signed for a reservation that is not known to be saved. */
    method CountAndSign() returns (why: Option<EndReason>)
      requires Valid() && phase == Reserving
      modifies this
      ensures Valid() && OneMore(old(calls), calls)
      ensures if why.Some? then phase == Ending(why.value) else phase == Passing && !record.ended && finality.None?
    {
      PhaseOf(world, View());
      var saved := AwaitWrite();
      if saved {
        ReservationCounted();
        why := Sign();
      } else {
        ReservationLost();
        why := Some(Unavailable);
      }
    }

    /** P4-P6 for a payment whose inclusion block ages: judged from that block first. Whether the pass goes on. */
    method JudgeEarly(a: Reads) returns (over: bool, why: Option<EndReason>)
      requires Steady() && CanJudge(View()) && Honest(world, a)
      modifies this
      ensures Valid() && calls == old(calls)
      ensures if why.Some? then over && phase == Ending(why.value) else Steady()
      ensures !over ==> record == old(record) || Judged(old(record), record)
    {
      over, why := PassRead();
      if over {
        return;
      }
      var kept: bool, outOfReach: bool := *, *;
      if !kept {
        Reorg();
        return true, Some(EndReason.Reorg);
      }
      if !outOfReach {
        soldOut := soldOut || (a.x.Some? && a.x.value.next.None?);
        JudgeInPass(Evidence(a.inclusionChain, None, a.x, a.y));
        over := phase != Passing;
        why := if over then Some(phase.reason) else None;
      }
    }

    /** P4-P6: reads the view, proves the lineage below it, and judges the previous payment there. */
    method AttestAndJudge(a: Reads) returns (over: bool, why: Option<EndReason>)
      requires Steady() && Honest(world, a)
      requires record.attempts != [] ==> LastOf(record).status in {Included, Minted, LostRace}
      modifies this
      ensures Valid() && calls == old(calls)
      ensures if why.Some? then over && phase == Ending(why.value) else Steady()
      ensures !over && record.attempts != [] ==> AdmitsSuccessor(LastOf(record).status) && LineageHolds(record, a)
    {
      over, why := PassRead();
      if over {
        return;
      }
      soldOut := soldOut || a.view.next.None?;
      if record.attempts != [] {
        over, why := PassRead();
        if over {
          return;
        }
        if !LineageHolds(record, a) {
          Reorg();
          return true, Some(EndReason.Reorg);
        }
        if LastOf(record).status == Included {
          soldOut := soldOut || (a.x.Some? && a.x.value.next.None?);
          ghost var before := record;
          JudgeInPass(Evidence(a.chain, Some(a.view), a.x, a.y));
          over := phase != Passing;
          why := if over then Some(phase.reason) else None;
          if !over {
            LineageStays(before, record, a);
          }
        }
      }
    }

    /** P1-P3: authority, finality, and the previous payment found in a block, before anything else. */
    method Prepare() returns (over: bool, why: Option<EndReason>)
      requires Valid() && phase == Passing && finality.None? && !record.ended
      modifies this
      ensures Valid() && calls == old(calls)
      ensures if why.Some? then over && phase == Ending(why.value)
              else phase == Passing && !record.ended && finality.None?
      ensures !over ==>
                Steady() && (record.attempts != [] ==> LastOf(record).status in {Included, Minted, LostRace})
    {
      over := true;
      why := Authority();
      if why.Some? {
        Leave(why.value);
        return;
      }
      var due: bool, final: nat, answers: FinalityChecks.Answers := *, *, *;
      var failed := RefreshFinality(due, final, answers);
      PhaseOf(world, View());
      if failed.Some? && failed.value.TryAgain? {
        return true, None;
      }
      if failed.Some? || record.reorganized {
        why := Some(if failed.Some? then failed.value.reason else EndReason.Reorg);
        Leave(why.value);
        return;
      }
      if record.attempts != [] && LastOf(record).status in {Sent, Uncertain} {
        var kept: bool, fate: ChainSearch.Fate, answered: bool, r: Followed := *, *, false, Waiting;
        answered, r := FollowPayment(kept, fate);
        return !r.Recorded?, if r.Gone? then Some(r.reason) else None;
      }
      return false, None;
    }

    /** P1-P15: one pass; none when the next one should run. It hands over at most one payment. */
    method Pass(a: Reads) returns (why: Option<EndReason>)
      requires Valid() && phase == Passing && finality.None? && !record.ended && Honest(world, a)
      modifies this
      ensures Valid() && OneMore(old(calls), calls)
      ensures if why.Some? then phase == Ending(why.value) else phase == Passing && !record.ended && finality.None?
    {
      var over: bool;
      over, why := Prepare();
      if over {
        return;
      }
      var classify := record.attempts != [] && LastOf(record).status == Included;
      var admit := Limits(record, soldOut, now, unlockDeadline).None?;
      if !classify && !admit {
        Finish();
        return Some(phase.reason);
      }
      var late: bool := *;   // the attestation budget would make a tip attestation come too late
      if classify && late {
        over, why := JudgeEarly(a);
        if over {
          return;
        }
        if LastOf(record).status != Included && (!admit || Limits(record, soldOut, now, unlockDeadline).Some?) {
          Finish();
          return Some(phase.reason);
        }
      }
      over, why := AttestAndJudge(a);
      if !over {
        var asked: bool;
        why, asked := AdmitPayment(a, admit);
      }
    }

    // ---- The end, and after it ----------------------------------------------------------------------

    /** Ends the record; the write may fail, then once more. */
    method End()
      requires Valid() && phase.Ending?
      modifies this
      ensures Valid() && phase == Settling && finality.None? && calls == old(calls)
      ensures record.ended && record.reason == Some(old(phase).reason)
    {
      PhaseOf(world, View());
      Close();
      PhaseOf(world, View());
      Await();
    }

    method Close()
      requires Valid() && phase.Ending?
      modifies this
      ensures Valid() && View() == Closing(old(View()), old(phase).reason)
    {
      ghost var t := Closing(View(), phase.reason);
      Stepped(world, View(), SessionMachine.End);
      CancelAttempt();
      record := record.(ended := true, reason := Some(phase.reason), endedAt := Some(now));
      if stopWith.None? {
        stopWith := Some(phase.reason);
      }
      phase := Settling;
      writes := writes + [Snap(record, transactions)];
      assert View() == t;
    }

    /** One round of the read-only settle task: it signs nothing and hands over nothing. It records at most the
        position found for the last payment, and the verdict its evidence gives. */
    method SettleRound(a: Reads, found: Option<Position>)
      requires Valid() && phase == Settling && finality.None? && Honest(world, a)
      modifies this
      ensures Valid() && phase == Settling && finality.None? && calls == old(calls) && signedFor == old(signedFor)
      ensures SettlesTo(old(record), record, found, EvidenceOf(a))
    {
      SettlesAtOnce(record, found, EvidenceOf(a));
      if record.attempts != [] && !LastOf(record).doubt {
        FollowWhileSettling(found, EvidenceOf(a));
        JudgeWhileSettling(old(record), a, found);
      }
      var due: bool, final: nat, answers: FinalityChecks.Answers := *, *, *;
      ghost var before := record;
      var failed := RefreshFinality(due, final, answers);
      CheckedFurther(old(record), before, record, found, EvidenceOf(a));
    }

    method FollowWhileSettling(found: Option<Position>, ghost evidence: Evidence)
      requires Valid() && phase == Settling && finality.None?
      modifies this
      ensures Valid() && phase == Settling && finality.None? && calls == old(calls) && signedFor == old(signedFor)
      ensures SettlesTo(old(record), record, found, evidence)
    {
      SettlesAtOnce(record, found, evidence);
      var failed := Ask();
      AwaitedIsChecked(old(record), record);
      CheckedFurther(old(record), old(record), record, found, evidence);
      if failed.None? && found.Some? && CanFollow(View()) && InWindow(LastOf(record), found.value) {
        FoundFurther(old(record), record, found.value, evidence);
        RecordInclusion(found.value);
        ghost var recorded := record;
        Await();
        AwaitedIsChecked(recorded, record);
        CheckedFurther(old(record), recorded, record, found, evidence);
      }
    }

    /** What history resolved while the blocks were read is not judged again. */
    method JudgeWhileSettling(ghost start: Record, a: Reads, ghost found: Option<Position>)
      requires Valid() && phase == Settling && finality.None? && Honest(world, a)
      requires SettlesTo(start, record, found, EvidenceOf(a))
      modifies this
      ensures Valid() && phase == Settling && finality.None? && calls == old(calls) && signedFor == old(signedFor)
      ensures SettlesTo(start, record, found, EvidenceOf(a))
    {
      if CanJudge(View()) {
        var at := LastOf(record).inclusion;
        ghost var before := record;
        var failed := Ask();
        AwaitedIsChecked(before, record);
        CheckedFurther(start, before, record, found, EvidenceOf(a));
        if failed.None? && CanJudge(View()) && LastOf(record).inclusion == at {
          JudgeAndAwait(start, a, found);
        }
      }
    }

    method JudgeAndAwait(ghost start: Record, a: Reads, ghost found: Option<Position>)
      requires Valid() && phase == Settling && finality.None? && Honest(world, a) && CanJudge(View())
      requires SettlesTo(start, record, found, EvidenceOf(a))
      modifies this
      ensures Valid() && phase == Settling && finality.None? && calls == old(calls) && signedFor == old(signedFor)
      ensures SettlesTo(start, record, found, EvidenceOf(a))
    {
      JudgingSettles(start, View(), found, EvidenceOf(a));
      Judge(EvidenceOf(a));
      ghost var judged := record;
      Await();
      AwaitedIsChecked(judged, record);
      CheckedFurther(start, judged, record, found, EvidenceOf(a));
    }

    /** Passes over whatever the wallet reads, in turn, until one ends the session. */
    method Run(answers: seq<Reads>) returns (ended: bool)
      requires Valid() && phase == Passing && finality.None? && !record.ended
      requires forall a <- answers :: Honest(world, a)
      modifies this
      ensures Valid() && (ended <==> record.ended) && (ended ==> phase == Settling)
      ensures old(calls) <= calls && |calls| <= |old(calls)| + |answers|
    {
      for i := 0 to |answers|
        invariant Valid() && phase == Passing && finality.None? && !record.ended
        invariant old(calls) <= calls && |calls| <= |old(calls)| + i
      {
        var why := Pass(answers[i]);
        if why.Some? {
          End();
          return true;
        }
        Await();
      }
      return false;
    }

    /** What the dapp sees: always within the approved terms. */
    method Snapshot(final: set<Hash>) returns (v: SessionSnapshots.Snapshot)
      requires Valid()
      ensures v == SessionSnapshots.SnapshotOf(record, final) && SessionSnapshots.SnapshotParses(record.terms, v)
      ensures |signedFor| <= v.used <= record.terms.maxAttempts && |calls| <= v.used
      ensures SnapshotMeaning.CountsAre(v, record, final) && SnapshotMeaning.SpendsAre(v, record, final)
      ensures SnapshotMeaning.PaymentsAre(v, record.attempts, final)
    {
      SnapshotMeaning.SnapshotIsExact(record, final);
      EverySnapshotStaysWithinTerms(world, View(), Mem(View()), final);
      SignaturesAreCounted(world, View(), Mem(View()));
      v := SessionSnapshots.SnapshotOf(record, final);
    }
  }
}
