/** The wallet-wide operation protocol: one mutex, one gate, one outstanding operation per account. */
module WalletOperations {
  import opened MintTypes
  import opened StoredLedger
  import opened LedgerSoundness
  import opened SessionMachine
  import opened SessionSafety
  import opened SessionReleases

  // ---- Outstanding operations -----------------------------------------------------------------------

  /** What a history entry belongs to: one generic transaction, or the lots of one mint session. */
  datatype Operation = Single(hash: Hash) | Lots(session: Id)

  function OperationOf(l: Line): Operation {
    if l.session.Some? then Lots(l.session.value) else Single(l.hash)
  }

  predicate OpenOn(l: Line, owner: Id, genesis: Id) {
    l.owner == owner && l.genesis == genesis && !IsFinal(l.status)
  }

  /** Everything outstanding on the account belongs to `op`. */
  ghost predicate OpenFor(lines: seq<Line>, owner: Id, genesis: Id, op: Operation) {
    forall i :: 0 <= i < |lines| && OpenOn(lines[i], owner, genesis) ==> OperationOf(lines[i]) == op
  }

  /** Two outstanding entries of one account always belong to one operation. */
  ghost predicate Sole(lines: seq<Line>) {
    forall i, j :: 0 <= i < |lines| && 0 <= j < |lines| && !IsFinal(lines[i].status)
                   && OpenOn(lines[j], lines[i].owner, lines[i].genesis)
      ==> OperationOf(lines[i]) == OperationOf(lines[j])
  }

  /** `requireSettledAccount`: nothing of this account is unresolved in history. */
  predicate AllFinal(lines: seq<Line>, owner: Id, genesis: Id) {
    !Gates(lines, owner, genesis)
  }

  lemma SoleMeansOneOperation(lines: seq<Line>, owner: Id, genesis: Id) returns (op: Operation)
    requires Sole(lines)
    ensures OpenFor(lines, owner, genesis, op)
  {
    op := Single(0);
    if i :| 0 <= i < |lines| && OpenOn(lines[i], owner, genesis) {
      op := OperationOf(lines[i]);
    }
  }

  lemma AllFinalIsOpenForAny(lines: seq<Line>, owner: Id, genesis: Id, op: Operation)
    requires AllFinal(lines, owner, genesis)
    ensures OpenFor(lines, owner, genesis, op)
  {
  }

  /** Entries only move forward: a final one stays as it is, and only a signed one may turn out unreleased. */
  ghost predicate Advances(lines: seq<Line>, after: seq<Line>) {
    && SameKeys(lines, after)
    && forall i :: 0 <= i < |lines| ==>
         && (IsFinal(lines[i].status) ==> after[i] == lines[i])
         && (after[i].status in {SignedNotSubmitted, CancelledBeforeBroadcast} ==>
               after[i].status == lines[i].status || lines[i].status == SignedNotSubmitted)
  }

  lemma ClosingKeeps(lines: seq<Line>, after: seq<Line>)
    requires Advances(lines, after)
    ensures Sole(lines) ==> Sole(after)
    ensures forall owner, genesis, op :: OpenFor(lines, owner, genesis, op) ==> OpenFor(after, owner, genesis, op)
    ensures forall owner, genesis :: AllFinal(lines, owner, genesis) ==> AllFinal(after, owner, genesis)
  {
    forall owner, genesis | AllFinal(lines, owner, genesis) ensures AllFinal(after, owner, genesis) {
      if l :| l in after && l.owner == owner && l.genesis == genesis && !IsFinal(l.status) {
        var i :| 0 <= i < |after| && after[i] == l;
        assert lines[i] in lines;
      }
    }
  }

  /** The holder of the account may add entries of its own. */
  lemma OwnEntryKeeps(lines: seq<Line>, l: Line)
    requires Sole(lines) && OpenFor(lines, l.owner, l.genesis, OperationOf(l))
    ensures Sole([l] + lines) && OpenFor([l] + lines, l.owner, l.genesis, OperationOf(l))
  {
  }

  /** It may give its own entries any status, even one that reopens them. */
  lemma OwnStatusKeeps(lines: seq<Line>, i: nat, status: JournalStatus)
    requires Sole(lines) && i < |lines| && OpenFor(lines, lines[i].owner, lines[i].genesis, OperationOf(lines[i]))
    ensures
      var after := lines[i := lines[i].(status := status)];
      Sole(after) && OpenFor(after, lines[i].owner, lines[i].genesis, OperationOf(lines[i]))
  {
  }

  // ---- Final words ----------------------------------------------------------------------------------

  /** What a step leaves of history: every entry is still its payment's, and a final one is as it was exactly if it is
      none of those written over. */
  ghost predicate KeepsWords(lines: seq<Line>, after: seq<Line>, overwritten: set<Hash>) {
    forall h :: HasLine(lines, h) ==>
      && HasLine(after, h) && SameKey(LineOf(lines, h), LineOf(after, h))
      && (IsFinal(LineOf(lines, h).status) ==> (LineOf(after, h) == LineOf(lines, h) <==> h !in overwritten))
  }

  lemma AdvancingKeepsWords(lines: seq<Line>, after: seq<Line>)
    requires Advances(lines, after)
    ensures KeepsWords(lines, after, {})
  {
    forall h | HasLine(lines, h) ensures FindLine(after, h) == FindLine(lines, h) {
      KeysFind(lines, after, h);
    }
  }

  lemma EntryKeepsWords(lines: seq<Line>, l: Line)
    requires !HasLine(lines, l.hash)
    ensures KeepsWords(lines, [l] + lines, {})
  {
    assert ([l] + lines)[1..] == lines;
  }

  lemma MarkKeepsWords(lines: seq<Line>, hash: Hash, status: JournalStatus)
    requires HasLine(lines, hash)
    ensures KeepsWords(lines, SetStatus(lines, hash, status),
                       if LineOf(lines, hash).status == status then {} else {hash})
    ensures !IsFinal(status) ==> KeepsWords(lines, SetStatus(lines, hash, status), {hash})
  {
    StatusKeepsKeys(lines, hash, status);
    forall h | HasLine(lines, h) ensures FindLine(SetStatus(lines, hash, status), h) == FindLine(lines, h) {
      KeysFind(lines, SetStatus(lines, hash, status), h);
    }
  }

  // ---- History --------------------------------------------------------------------------------------

  /** What the indexer answers about one entry. */
  datatype Reply = Reply(status: JournalStatus, height: Option<nat>, success: Option<bool>, accepted: Option<bool>)

  /** What a synchronization waits for: the indexer, finality past the entry's era, or the indexer once more. */
  datatype Asked = AskedIndexer | AskedFinality | AskedAgain

  datatype Reading = Reading(entry: Hash, asked: Asked)

  predicate IsAnswer(status: JournalStatus) {
    status in {HistoryPending, HistoryIncluded, HistoryFinalized, HistoryExpired, IndexerUnavailable}
  }

  function FirstRead(l: Line, a: Reply): Line {
    if IsAnswer(a.status)
    then l.(status := a.status, height := if a.height.Some? then a.height else l.height, nativeSuccess := a.success,
            accepted := a.accepted)
    else l
  }

  /** Only such an entry may have expired unseen. */
  predicate MayHaveExpired(l: Line) {
    l.status in {HistoryPending, HistoryUnknown, BroadcastUncertain}
  }

  /** The answer given after finality passed the entry's era. */
  function SecondRead(l: Line, a: Reply): Line {
    if a.status == HistoryFinalized
    then l.(status := HistoryFinalized, height := a.height, nativeSuccess := a.success, accepted := a.accepted)
    else if a.status in {HistoryPending, HistoryUnknown, HistoryExpired}
    then l.(status := HistoryExpired, height := None, nativeSuccess := None, accepted := None)
    else l
  }

  function Unread(l: Line): Line {
    l.(status := HistoryUnknown)
  }

  function Rewritten(lines: seq<Line>, hash: Hash, l: Line): seq<Line>
    requires HasLine(lines, hash)
  {
    lines[FindLine(lines, hash) := l]
  }

  /** What the read of `l` gives the entry: nothing, once it is final. */
  function Read(l: Line, m: Line): Line {
    if IsFinal(l.status) then l else m
  }

  /** No answer takes back a final word or calls a released payment unreleased. */
  lemma ReadingAdvances(lines: seq<Line>, hash: Hash, answer: Option<Reply>)
    requires HasLine(lines, hash)
    ensures
      var l := LineOf(lines, hash);
      var first := if answer.None? then Unread(l) else FirstRead(l, answer.value);
      var second := if answer.None? then Unread(l) else SecondRead(l, answer.value);
      && Advances(lines, Rewritten(lines, hash, Read(l, first)))
      && Advances(lines, Rewritten(lines, hash, Read(l, second)))
  {
  }

  /** Only this entry may differ. */
  ghost predicate OnlyEntry(lines: seq<Line>, after: seq<Line>, hash: Hash) {
    && HasLine(lines, hash) && HasLine(after, hash) && |after| == |lines|
    && (forall i :: 0 <= i < |lines| && i != FindLine(lines, hash) ==> after[i] == lines[i])
    && SameKey(LineOf(lines, hash), LineOf(after, hash))
  }

  /** The first answer for the open entry `l`: a failed read makes it unknown, a named status is taken with the native
      result and the acceptance reported, and with the height if one is reported; any other word changes nothing. */
  ghost predicate FirstAnswered(l: Line, m: Line, answer: Option<Reply>) {
    match answer
    case None => m == l.(status := HistoryUnknown)
    case Some(a) =>
      if a.status in {HistoryPending, HistoryIncluded, HistoryFinalized, HistoryExpired, IndexerUnavailable} then
        && m.status == a.status && m.nativeSuccess == a.success && m.accepted == a.accepted
        && (a.height.Some? ==> m.height == a.height) && (a.height.None? ==> m.height == l.height)
      else m == l
  }

  /** The second answer, given past the era: the open entry is final exactly if the answer says so, with what it reports
      and nothing older; expired exactly if the answer knows of no block; and unknown if the read failed. */
  ghost predicate SecondAnswered(l: Line, m: Line, answer: Option<Reply>) {
    && (m.status == HistoryFinalized <==> answer.Some? && answer.value.status == HistoryFinalized)
    && (m.status == HistoryFinalized ==>
          m.height == answer.value.height && m.nativeSuccess == answer.value.success
          && m.accepted == answer.value.accepted)
    && (m.status == HistoryExpired
        <==> answer.Some? && answer.value.status in {HistoryPending, HistoryUnknown, HistoryExpired})
    && (m.status == HistoryExpired ==> m.height.None? && m.nativeSuccess.None? && m.accepted.None?)
    && (answer.None? ==> m == l.(status := HistoryUnknown))
    && (answer.Some? && !IsFinal(m.status) ==> m == l)
  }

  lemma AnswersMean(lines: seq<Line>, hash: Hash, answer: Option<Reply>)
    requires HasLine(lines, hash)
    ensures
      var l := LineOf(lines, hash);
      var first := Rewritten(lines, hash, Read(l, if answer.None? then Unread(l) else FirstRead(l, answer.value)));
      && OnlyEntry(lines, first, hash)
      && if l.status in {HistoryFinalized, HistoryExpired, CancelledBeforeBroadcast} then first == lines
         else FirstAnswered(l, LineOf(first, hash), answer)
    ensures
      var l := LineOf(lines, hash);
      var second := Rewritten(lines, hash, Read(l, if answer.None? then Unread(l) else SecondRead(l, answer.value)));
      && OnlyEntry(lines, second, hash)
      && if l.status in {HistoryFinalized, HistoryExpired, CancelledBeforeBroadcast} then second == lines
         else SecondAnswered(l, LineOf(second, hash), answer)
  {
    var l := LineOf(lines, hash);
    RewrittenOnce(lines, hash, Read(l, if answer.None? then Unread(l) else FirstRead(l, answer.value)));
    RewrittenOnce(lines, hash, Read(l, if answer.None? then Unread(l) else SecondRead(l, answer.value)));
  }

  lemma RewrittenOnce(lines: seq<Line>, hash: Hash, m: Line)
    requires HasLine(lines, hash) && SameKey(LineOf(lines, hash), m)
    ensures OnlyEntry(lines, Rewritten(lines, hash, m), hash) && LineOf(Rewritten(lines, hash, m), hash) == m
    ensures m == LineOf(lines, hash) ==> Rewritten(lines, hash, m) == lines
  {
    KeysFind(lines, Rewritten(lines, hash, m), hash);
  }

  lemma UnreadAdvances(lines: seq<Line>, hash: Hash, failed: bool)
    requires HasLine(lines, hash)
    ensures
      var l := LineOf(lines, hash);
      Advances(lines, Rewritten(lines, hash, Read(l, if failed then Unread(l) else l)))
  {
  }

  // ---- Copies ---------------------------------------------------------------------------------------

  /** One outstanding operation per account, in memory, in storage and in every write on its way. */
  ghost predicate SoleInAll(lines: seq<Line>, stored: seq<Line>, writes: seq<seq<Line>>) {
    Sole(lines) && Sole(stored) && forall i :: 0 <= i < |writes| ==> Sole(writes[i])
  }

  ghost predicate CommittedInAll(lines: seq<Line>, stored: seq<Line>, writes: seq<seq<Line>>, hash: Hash) {
    LinesCommit(lines, hash) && LinesCommit(stored, hash)
    && forall i :: 0 <= i < |writes| ==> LinesCommit(writes[i], hash)
  }

  /** The awaited write, and every later one, carries the commitment; all copies do once it landed. */
  ghost predicate CommitOnItsWay(lines: seq<Line>, stored: seq<Line>, writes: seq<seq<Line>>, wait: Wait, hash: Hash) {
    && LinesCommit(lines, hash)
    && (wait.Queued? ==> forall i :: wait.place <= i < |writes| ==> LinesCommit(writes[i], hash))
    && (wait == Saved ==> CommittedInAll(lines, stored, writes, hash))
  }

  function NextWait(wait: Wait, ok: bool): Wait {
    if !wait.Queued? then wait
    else if wait.place > 0 then Queued(wait.place - 1)
    else if ok then Saved else NotSaved
  }

  /** A settled write takes the commitment it carried into storage. */
  lemma WriteCarries(lines: seq<Line>, stored: seq<Line>, writes: seq<seq<Line>>, wait: Wait, hash: Hash, ok: bool,
                     landed: bool)
    requires writes != [] && CommitOnItsWay(lines, stored, writes, wait, hash) && (ok ==> landed)
    requires wait.Queued? ==> wait.place < |writes|
    ensures CommitOnItsWay(lines, if landed then writes[0] else stored, writes[1..], NextWait(wait, ok), hash)
  {
  }

  lemma WriteKeeps(lines: seq<Line>, stored: seq<Line>, writes: seq<seq<Line>>, handed: set<Hash>, landed: bool)
    requires writes != [] && SoleInAll(lines, stored, writes)
    requires forall h <- handed :: CommittedInAll(lines, stored, writes, h)
    ensures SoleInAll(lines, if landed then writes[0] else stored, writes[1..])
    ensures forall h <- handed :: CommittedInAll(lines, if landed then writes[0] else stored, writes[1..], h)
  {
  }

  /** A new snapshot at the end of the queue carries what memory holds. */
  lemma SavingKeeps(before: seq<Line>, lines: seq<Line>, stored: seq<Line>, writes: seq<seq<Line>>, handed: set<Hash>)
    requires SoleInAll(lines, stored, writes)
    requires forall h <- handed :: CommittedInAll(before, stored, writes, h) && LinesCommit(lines, h)
    ensures SoleInAll(lines, stored, writes + [lines])
    ensures forall h <- handed :: CommittedInAll(lines, stored, writes + [lines], h)
    ensures forall h :: LinesCommit(lines, h) ==>
              CommitOnItsWay(lines, stored, writes + [lines], Queued(|writes|), h)
  {
  }

  // ---- Jobs -----------------------------------------------------------------------------------------

  datatype Kind = Connecting | Transacting | Minting | SigningIn | Vaulting

  datatype JobPhase = InReview | InSigning

  datatype Job = Job(kind: Kind, owner: Id, genesis: Id, phase: JobPhase, cancelled: bool)

  /** One `createJob` call between its awaits; `job` once it inserted its job and waits for the window. */
  datatype Creation = Creation(kind: Kind, owner: Id, genesis: Id, gated: bool, job: Option<Id>)

  /** Where an approval is between its awaits. */
  datatype Stage =
    | Claimed | SavingRecord | SavingEnd | SavingSigned | SavingRelease | Submitting | SavingAnswer | Failing

  datatype Approval = Approval(stage: Stage, hash: Option<Hash>)

  datatype Session = Session(id: Id, owner: Id, genesis: Id)

  /** Whose the mutex is. */
  datatype Holder = Nobody | Creating(call: Id) | Reviewing(job: Id) | Approving(job: Id) | Running

  predicate IsSigning(job: Job) {
    job.kind != Connecting && job.phase == InSigning
  }

  function EntryOf(job: Job, hash: Hash, nonce: nat): Line {
    Line(hash, job.owner, job.genesis, nonce, SignedNotSubmitted, None, None, None, None)
  }

  ghost predicate IsEntryOf(lines: seq<Line>, hash: Hash, job: Job) {
    HasLine(lines, hash) && LineOf(lines, hash).owner == job.owner && LineOf(lines, hash).genesis == job.genesis
    && LineOf(lines, hash).session.None?
  }

  lemma AdvancingCommits(lines: seq<Line>, after: seq<Line>, hash: Hash)
    requires Advances(lines, after) && LinesCommit(lines, hash)
    ensures LinesCommit(after, hash)
  {
    KeysFind(lines, after, hash);
  }

  lemma AdvancingKeepsEntry(lines: seq<Line>, after: seq<Line>, hash: Hash, job: Job)
    requires Advances(lines, after) && IsEntryOf(lines, hash, job)
    ensures IsEntryOf(after, hash, job)
  {
    KeysFind(lines, after, hash);
  }

  lemma AdvancesTwice(lines: seq<Line>, after: seq<Line>, later: seq<Line>)
    requires Advances(lines, after) && Advances(after, later)
    ensures Advances(lines, later)
  {
  }

  lemma CancellingOneAdvances(lines: seq<Line>, hash: Hash)
    requires HasLine(lines, hash) && LineOf(lines, hash).status == SignedNotSubmitted
    ensures Advances(lines, SetStatus(lines, hash, CancelledBeforeBroadcast))
  {
  }

  lemma {:induction false} CancellingStaleAdvances(attempts: seq<Attempt>, lines: seq<Line>)
    ensures Advances(lines, CancelStaleLines(attempts, lines))
  {
    if attempts != [] {
      var k := |attempts| - 1;
      var before := CancelStaleLines(attempts[..k], lines);
      CancellingStaleAdvances(attempts[..k], lines);
      if attempts[k].hash.Some? && HasLine(before, attempts[k].hash.value)
         && LineOf(before, attempts[k].hash.value).status == SignedNotSubmitted {
        CancellingOneAdvances(before, attempts[k].hash.value);
        AdvancesTwice(lines, before, SetStatus(before, attempts[k].hash.value, CancelledBeforeBroadcast));
      }
    }
  }

  lemma {:induction false} StaleLinesAdvance(sessions: seq<Record>, lines: seq<Line>, owner: Id, genesis: Id)
    ensures Advances(lines, StaleLines(sessions, lines, owner, genesis))
  {
    if sessions != [] {
      var k := |sessions| - 1;
      var before := StaleLines(sessions[..k], lines, owner, genesis);
      StaleLinesAdvance(sessions[..k], lines, owner, genesis);
      CancellingStaleAdvances(sessions[k].attempts, before);
      if IsStale(sessions[k], owner, genesis) {
        AdvancesTwice(lines, before, CancelStaleLines(sessions[k].attempts, before));
      }
    }
  }

  lemma RestartAdvances(lines: seq<Line>)
    ensures Advances(lines, RestartLines(lines))
  {
  }

  /** A first entry on a settled account, with a hash nobody signed. */
  lemma NewEntryKeeps(lines: seq<Line>, l: Line, handed: set<Hash>)
    requires Sole(lines) && AllFinal(lines, l.owner, l.genesis) && !HasLine(lines, l.hash)
    requires forall h <- handed :: LinesCommit(lines, h)
    ensures Sole([l] + lines) && OpenFor([l] + lines, l.owner, l.genesis, OperationOf(l))
    ensures HasLine([l] + lines, l.hash) && LineOf([l] + lines, l.hash) == l
    ensures forall h <- handed :: LinesCommit([l] + lines, h)
  {
    AllFinalIsOpenForAny(lines, l.owner, l.genesis, OperationOf(l));
    OwnEntryKeeps(lines, l);
    forall h | h in handed ensures LinesCommit([l] + lines, h) {
      NewLineCommits(lines, l, h);
    }
  }

  /** The only outstanding operation of an account marks its own entry. */
  lemma MarkedEntryKeeps(lines: seq<Line>, hash: Hash, status: JournalStatus, job: Job, handed: set<Hash>)
    requires Sole(lines) && OpenFor(lines, job.owner, job.genesis, Single(hash)) && IsEntryOf(lines, hash, job)
    requires forall h <- handed :: LinesCommit(lines, h)
    requires hash in handed ==> status !in {SignedNotSubmitted, CancelledBeforeBroadcast}
    ensures
      var after := SetStatus(lines, hash, status);
      && Sole(after) && OpenFor(after, job.owner, job.genesis, Single(hash)) && IsEntryOf(after, hash, job)
      && LineOf(after, hash).status == status && forall h <- handed :: LinesCommit(after, h)
  {
    var after := SetStatus(lines, hash, status);
    OwnStatusKeeps(lines, FindLine(lines, hash), status);
    StatusKeepsKeys(lines, hash, status);
    KeysFind(lines, after, hash);
    forall h | h in handed ensures LinesCommit(after, h) {
      NewStatusCommits(lines, hash, status, h);
    }
  }

  /** What the approval of `job` may assume of history. */
  ghost predicate ApprovalOk(job: Job, a: Approval, transactions: seq<Line>, stored: seq<Line>, writes: seq<seq<Line>>,
                             awaited: Wait, handed: set<Hash>)
  {
    && (a.hash.None? && job.kind in {Transacting, Minting} ==> AllFinal(transactions, job.owner, job.genesis))
    && (a.hash.None? <==> a.stage in {Claimed, SavingRecord, SavingEnd})
    && (a.stage != Claimed ==> job.kind == if a.stage in {SavingRecord, SavingEnd} then Minting else Transacting)
    && (a.hash.Some? ==>
          && OpenFor(transactions, job.owner, job.genesis, Single(a.hash.value))
          && IsEntryOf(transactions, a.hash.value, job))
    && (a.stage !in {Claimed, Submitting} ==> awaited != NoWait)
    && (a.stage in {SavingSigned, SavingRelease, Failing} ==> a.hash.value !in handed)
    && (a.stage in {Submitting, SavingAnswer} ==> LinesCommit(transactions, a.hash.value))
    && (a.stage == SavingRelease ==> CommitOnItsWay(transactions, stored, writes, awaited, a.hash.value))
  }

  lemma WriteKeepsApproval(job: Job, a: Approval, lines: seq<Line>, stored: seq<Line>, writes: seq<seq<Line>>,
                           wait: Wait, handed: set<Hash>, ok: bool, landed: bool)
    requires writes != [] && (ok ==> landed) && (wait.Queued? ==> wait.place < |writes|)
    requires ApprovalOk(job, a, lines, stored, writes, wait, handed)
    ensures ApprovalOk(job, a, lines, if landed then writes[0] else stored, writes[1..], NextWait(wait, ok), handed)
  {
    if a.stage == SavingRelease {
      WriteCarries(lines, stored, writes, wait, a.hash.value, ok, landed);
    }
  }

  class Wallet {
    var transactions: seq<Line>
    var stored: seq<Line>
    var writes: seq<seq<Line>>
    var awaited: Wait
    var walletBusy: bool
    var jobs: map<Id, Job>
    var creations: map<Id, Creation>
    var approvals: map<Id, Approval>
    var session: Option<Session>
    var reading: Option<Reading>
    var handed: set<Hash>        // generic transactions handed to the transport
    ghost var holder: Holder
    ghost var left: set<Id>      // jobs whose approval is over and that nobody answered

    // ---- Invariants ---------------------------------------------------------------------------------

    /** Everything in progress that needs the mutex is its holder, and the holder is in progress. */
    ghost predicate Mutex()
      reads this`walletBusy, this`holder, this`creations, this`jobs, this`approvals, this`session
    {
      && (walletBusy <==> holder != Nobody)
      && (forall c <- creations.Keys ::
            creations[c].kind != Connecting && creations[c].job.None? ==> holder == Creating(c))
      && (forall j <- jobs.Keys :: jobs[j].kind != Connecting && jobs[j].phase == InReview ==> holder == Reviewing(j))
      && (forall j <- approvals.Keys ::
            holder == Approving(j) && j in jobs && jobs[j].kind != Connecting && jobs[j].phase == InSigning)
      && (session.Some? ==> holder == Running)
      && match holder
         case Nobody => true
         case Creating(c) => c in creations && creations[c].kind != Connecting && creations[c].job.None?
         case Reviewing(j) => j in jobs && jobs[j].kind != Connecting && jobs[j].phase == InReview
         case Approving(j) => j in approvals
         case Running => session.Some?
    }

    /** A job whose window is still being opened is in review; only operations that write history pass the gate. */
    ghost predicate Windows()
      reads this`creations, this`jobs
    {
      forall c <- creations.Keys ::
        && (creations[c].gated ==> creations[c].kind in {Transacting, Minting})
        && (creations[c].job.Some? && creations[c].job.value in jobs ==>
              jobs[creations[c].job.value].phase == InReview && jobs[creations[c].job.value].kind == creations[c].kind)
    }

    ghost predicate ApprovalInv(job: Job, a: Approval)
      reads this`transactions, this`stored, this`writes, this`awaited, this`handed
    {
      ApprovalOk(job, a, transactions, stored, writes, awaited, handed)
    }

    /** From the gate until its first entry the holder's account is settled; after it, only its own entries are
        outstanding. */
    ghost predicate Gated()
      reads this`creations, this`jobs, this`approvals, this`session, this`transactions, this`stored, this`writes,
            this`awaited, this`handed
    {
      && (forall c <- creations.Keys :: creations[c].gated && creations[c].job.None? ==>
            AllFinal(transactions, creations[c].owner, creations[c].genesis))
      && (forall j <- jobs.Keys :: jobs[j].kind in {Transacting, Minting} && jobs[j].phase == InReview ==>
            AllFinal(transactions, jobs[j].owner, jobs[j].genesis))
      && (forall j <- approvals.Keys :: j in jobs ==> ApprovalInv(jobs[j], approvals[j]))
      && (session.Some? ==> OpenFor(transactions, session.value.owner, session.value.genesis, Lots(session.value.id)))
    }

    ghost predicate Outstanding()
      reads this`transactions, this`stored, this`writes, this`awaited, this`handed
    {
      && SoleInAll(transactions, stored, writes)
      && (forall h <- handed :: CommittedInAll(transactions, stored, writes, h))
      && (awaited.Queued? ==> awaited.place < |writes|)
    }

    /** The entry a synchronization reads is in history. */
    ghost predicate Known()
      reads this`reading, this`transactions
    {
      reading.Some? ==> HasLine(transactions, reading.value.entry)
    }

    /** A job being signed belongs to an approval in progress, or was left behind. */
    ghost predicate Leftovers()
      reads this`jobs, this`approvals, this`left
    {
      && (forall j <- jobs.Keys :: IsSigning(jobs[j]) ==> j in approvals || j in left)
      && (forall j <- left :: j in jobs && IsSigning(jobs[j]) && j !in approvals)
    }

    ghost predicate Valid()
      reads this
    {
      Mutex() && Windows() && Gated() && Outstanding() && Leftovers() && Known()
    }

    lemma NothingGated()
      requires Mutex() && Windows() && Outstanding() && Leftovers() && Known()
      requires holder == Nobody
      ensures Valid()
    {
    }

    /** While a job in review holds the mutex, its account's settlement is all the gate has to keep. */
    lemma OnlyReview(id: Id)
      requires Mutex() && Windows() && Outstanding() && Leftovers() && Known()
      requires holder == Reviewing(id)
      requires jobs[id].kind in {Transacting, Minting} ==> AllFinal(transactions, jobs[id].owner, jobs[id].genesis)
      ensures Valid()
    {
    }

    /** While an approval holds the mutex, its own assumptions are all the gate has to keep. */
    lemma OnlyApproval(id: Id)
      requires Mutex() && Windows() && Outstanding() && Leftovers() && Known()
      requires holder == Approving(id) && ApprovalInv(jobs[id], approvals[id])
      ensures Valid()
    {
    }

    constructor (transactions: seq<Line>)
      requires Sole(transactions)
      ensures Valid() && holder == Nobody && handed == {} && this.transactions == transactions
      ensures stored == transactions && writes == [] && jobs == map[] && creations == map[] && approvals == map[]
      ensures left == {} && reading.None? && session.None?
    {
      this.transactions, stored, writes, awaited := transactions, transactions, [], NoWait;
      walletBusy, jobs, creations, approvals, session := false, map[], map[], map[], None;
      reading, handed, holder, left := None, {}, Nobody, {};
    }

    // ---- createJob ----------------------------------------------------------------------------------

    /** The mutex is taken before the first await, or the call is refused. */
    method CreateJob(c: Id, kind: Kind, owner: Id, genesis: Id, allowed: bool) returns (ok: bool)
      requires Valid() && c !in creations
      modifies this`walletBusy, this`creations, this`holder
      ensures Valid()
      ensures ok <==> kind == Connecting || (allowed && !old(walletBusy))
      ensures creations
           == if ok then old(creations)[c := Creation(kind, owner, genesis, false, None)] else old(creations)
      ensures holder == if ok && kind != Connecting then Creating(c) else old(holder)
    {
      if kind != Connecting {
        if walletBusy || !allowed {
          return false;
        }
        walletBusy, holder := true, Creating(c);
      }
      creations := creations[c := Creation(kind, owner, genesis, false, None)];
      ok := true;
    }

    /** The catch of `createJob`: gives the mutex back only if this call, or the job it inserted, still holds it. */
    method FailCreation(c: Id)
      requires Valid() && c in creations
      modifies this`walletBusy, this`creations, this`jobs, this`holder
      ensures Valid() && creations == old(creations) - {c}
      ensures jobs == if old(creations)[c].job.Some? then old(jobs) - {old(creations)[c].job.value} else old(jobs)
      ensures holder == if old(holder) == Creating(c)
                           || (old(creations)[c].job.Some? && old(holder) == Reviewing(old(creations)[c].job.value))
                        then Nobody else old(holder)
    {
      var call := creations[c];
      var owned := call.job.None? || call.job.value in jobs;
      if call.kind != Connecting && owned {
        FailOwned(c);
      } else {
        jobs, creations := if call.job.Some? then jobs - {call.job.value} else jobs, creations - {c};
      }
    }

    method FailOwned(c: Id)
      requires Valid() && c in creations && creations[c].kind != Connecting
      requires creations[c].job.Some? ==> creations[c].job.value in jobs
      modifies this`walletBusy, this`creations, this`jobs, this`holder
      ensures Valid() && creations == old(creations) - {c} && holder == Nobody
      ensures jobs == if old(creations)[c].job.Some? then old(jobs) - {old(creations)[c].job.value} else old(jobs)
    {
      var call := creations[c];
      jobs, creations := if call.job.Some? then jobs - {call.job.value} else jobs, creations - {c};
      GiveBack();
    }

    /** The mutex is given back by the operation that held it. */
    method GiveBack()
      requires Windows() && Outstanding() && Leftovers() && Known() && approvals == map[] && session.None?
      requires forall c <- creations.Keys :: creations[c].kind == Connecting || creations[c].job.Some?
      requires forall j <- jobs.Keys :: jobs[j].kind == Connecting || jobs[j].phase == InSigning
      modifies this`walletBusy, this`holder
      ensures Valid() && holder == Nobody
    {
      walletBusy, holder := false, Nobody;
      NothingGated();
    }

    /** After the history read: the gate, for the operations that write history. */
    method PassGate(c: Id) returns (passed: bool)
      requires Valid() && c in creations && creations[c].job.None? && creations[c].kind in {Transacting, Minting}
      modifies this`walletBusy, this`creations, this`jobs, this`holder
      ensures Valid() && (passed <==> AllFinal(transactions, old(creations)[c].owner, old(creations)[c].genesis))
      ensures passed ==> creations == old(creations)[c := old(creations)[c].(gated := true)] && holder == old(holder)
      ensures !passed ==> creations == old(creations) - {c} && holder == Nobody
      ensures jobs == old(jobs)
    {
      passed := !Gates(transactions, creations[c].owner, creations[c].genesis);
      if passed {
        creations := creations[c := creations[c].(gated := true)];
      } else {
        FailCreation(c);
      }
    }

    /** The review is ready: the job enters, still before its window opens. */
    method InsertJob(c: Id, id: Id)
      requires Valid() && c in creations && creations[c].job.None?
      requires creations[c].kind in {Transacting, Minting} ==> creations[c].gated
      requires id !in jobs && forall d <- creations.Keys :: creations[d].job != Some(id)
      modifies this`creations, this`jobs, this`holder
      ensures Valid()
      ensures var call := old(creations)[c];
              && creations == old(creations)[c := call.(job := Some(id))]
              && jobs == old(jobs)[id := Job(call.kind, call.owner, call.genesis, InReview, false)]
              && holder == if call.kind == Connecting then old(holder) else Reviewing(id)
    {
      var call := creations[c];
      if call.kind == Connecting {
        jobs := jobs[id := Job(call.kind, call.owner, call.genesis, InReview, false)];
        creations := creations[c := call.(job := Some(id))];
      } else {
        InsertReview(c, id);
      }
    }

    method InsertReview(c: Id, id: Id)
      requires Valid() && c in creations && creations[c].job.None? && creations[c].kind != Connecting
      requires creations[c].kind in {Transacting, Minting} ==> creations[c].gated
      requires id !in jobs && forall d <- creations.Keys :: creations[d].job != Some(id)
      modifies this`creations, this`jobs, this`holder
      ensures Valid() && creations == old(creations)[c := old(creations)[c].(job := Some(id))]
      ensures
        var call := old(creations)[c];
        jobs == old(jobs)[id := Job(call.kind, call.owner, call.genesis, InReview, false)] && holder == Reviewing(id)
    {
      var call := creations[c];
      jobs := jobs[id := Job(call.kind, call.owner, call.genesis, InReview, false)];
      creations := creations[c := call.(job := Some(id))];
      holder := Reviewing(id);
      OnlyReview(id);
    }

    method WindowOpened(c: Id)
      requires Valid() && c in creations && creations[c].job.Some?
      modifies this`creations
      ensures Valid() && creations == old(creations) - {c}
    {
      creations := creations - {c};
    }

    // ---- finish and cancel --------------------------------------------------------------------------

    /** Drops a job in review and gives back the mutex it holds. */
    method FinishReview(id: Id)
      requires Valid() && id in jobs && jobs[id].phase == InReview
      modifies this`walletBusy, this`jobs, this`holder
      ensures Valid() && jobs == old(jobs) - {id}
      ensures holder == if old(jobs)[id].kind == Connecting then old(holder) else Nobody
    {
      var job := jobs[id];
      jobs := jobs - {id};
      if job.kind != Connecting {
        walletBusy, holder := false, Nobody;
      }
    }

    /** `cancel`: a job being signed keeps the mutex until its approval is over. */
    method CancelJob(id: Id)
      requires Valid()
      modifies this`walletBusy, this`jobs, this`holder
      ensures Valid()
      ensures id !in old(jobs) ==> jobs == old(jobs) && holder == old(holder)
      ensures id in old(jobs) && old(jobs)[id].phase == InReview ==>
                jobs == old(jobs) - {id}
                && holder == if old(jobs)[id].kind == Connecting then old(holder) else Nobody
      ensures id in old(jobs) && old(jobs)[id].phase == InSigning ==>
                jobs == old(jobs)[id := old(jobs)[id].(cancelled := true)] && holder == old(holder)
    {
      if id in jobs {
        if jobs[id].phase == InReview {
          FinishReview(id);
        } else {
          jobs := jobs[id := jobs[id].(cancelled := true)];
        }
      }
    }

    // ---- approve ------------------------------------------------------------------------------------

    /** The first approval of a review claims it; a second one is refused before it can touch anything. A refused
        connection stays in review, any other refused job is answered. */
    method Claim(id: Id, asReviewed: bool) returns (claimed: bool)
      requires Valid() && forall c <- creations.Keys :: creations[c].job != Some(id)
      modifies this`walletBusy, this`jobs, this`approvals, this`holder, this`writes
      ensures Valid()
      ensures claimed <==> id in old(jobs) && old(jobs)[id].phase == InReview && asReviewed
      ensures claimed ==> jobs == old(jobs)[id := old(jobs)[id].(phase := InSigning)]
      ensures if claimed && jobs[id].kind != Connecting
              then holder == Approving(id) && approvals == old(approvals)[id := Approval(Claimed, None)]
              else approvals == old(approvals)
      ensures writes == old(writes) + if claimed && jobs[id].kind == Connecting then [transactions] else []
      ensures !claimed && id in old(jobs) && old(jobs)[id].phase == InReview && old(jobs)[id].kind != Connecting ==>
                jobs == old(jobs) - {id} && holder == Nobody
      ensures id !in old(jobs) || old(jobs)[id].phase == InSigning || old(jobs)[id].kind == Connecting ==>
                holder == old(holder) && (claimed || jobs == old(jobs))
    {
      if id !in jobs || jobs[id].phase != InReview {
        return false;
      }
      claimed := asReviewed;
      if jobs[id].kind == Connecting {
        if claimed {
          jobs := jobs[id := jobs[id].(phase := InSigning)];
          Save();
        }
      } else if claimed {
        StartApproval(id);
      } else {
        FinishReview(id);
      }
    }

    /** Once its grant was saved, or could not be and was taken back, a connection is answered. */
    method FinishConnection(id: Id, granted: bool)
      requires Valid() && id in jobs && jobs[id].kind == Connecting && jobs[id].phase == InSigning
      modifies this`jobs, this`writes
      ensures Valid() && jobs == old(jobs) - {id}
      ensures writes == old(writes) + if granted then [] else [transactions]
    {
      if !granted {
        Save();
      }
      jobs := jobs - {id};
    }

    method StartApproval(id: Id)
      requires Valid() && id in jobs && jobs[id].phase == InReview && jobs[id].kind != Connecting
      requires forall c <- creations.Keys :: creations[c].job != Some(id)
      modifies this`jobs, this`approvals, this`holder
      ensures Valid() && holder == Approving(id)
      ensures jobs == old(jobs)[id := old(jobs)[id].(phase := InSigning)]
      ensures approvals == old(approvals)[id := Approval(Claimed, None)]
    {
      jobs := jobs[id := jobs[id].(phase := InSigning)];
      approvals := approvals[id := Approval(Claimed, None)];
      holder := Approving(id);
      assert ApprovalInv(jobs[id], approvals[id]);
      OnlyApproval(id);
    }

    /** The end of an approval: the job is answered and dropped, and the mutex is given back in the same step. */
    method Release(id: Id)
      requires Mutex() && Windows() && Outstanding() && Leftovers() && Known() && id in approvals
      modifies this`walletBusy, this`jobs, this`approvals, this`holder
      ensures Valid() && holder == Nobody && approvals == old(approvals) - {id} && jobs == old(jobs) - {id}
    {
      jobs := jobs - {id};
      approvals := approvals - {id};
      walletBusy, holder := false, Nobody;
      NothingGated();
    }

    /** The save in the catch threw: the mutex is given back, and the job stays, answered by nobody. */
    method Abandon(id: Id)
      requires Mutex() && Windows() && Outstanding() && Leftovers() && Known() && id in approvals
      modifies this`walletBusy, this`approvals, this`holder, this`left
      ensures Valid() && holder == Nobody && approvals == old(approvals) - {id} && left == old(left) + {id}
    {
      left := left + {id};
      approvals := approvals - {id};
      walletBusy, holder := false, Nobody;
      NothingGated();
    }

    /** An approval moves on, with its own entry and writes. */
    method Proceed(id: Id, a: Approval, lines: seq<Line>)
      requires Mutex() && Windows() && Outstanding() && Leftovers() && Known() && id in approvals
      requires SoleInAll(lines, stored, writes) && forall h <- handed :: LinesCommit(lines, h)
      requires forall h :: HasLine(transactions, h) ==> HasLine(lines, h)
      requires a.hash.Some? && a.stage in {SavingSigned, SavingRelease, SavingAnswer, Failing}
      requires jobs[id].kind == Transacting
      requires OpenFor(lines, jobs[id].owner, jobs[id].genesis, Single(a.hash.value))
      requires IsEntryOf(lines, a.hash.value, jobs[id])
      requires a.stage != SavingAnswer ==> a.hash.value !in handed
      requires a.stage in {SavingRelease, SavingAnswer} ==> LinesCommit(lines, a.hash.value)
      modifies this`transactions, this`writes, this`awaited, this`approvals
      ensures Valid() && approvals == old(approvals)[id := a] && transactions == lines
      ensures writes == old(writes) + [lines] && awaited == Queued(|old(writes)|)
    {
      SavingKeeps(transactions, lines, stored, writes, handed);
      transactions := lines;
      approvals := approvals[id := a];
      awaited := Queued(|writes|);
      writes := writes + [lines];
      assert ApprovalInv(jobs[id], a);
      OnlyApproval(id);
    }

    /** Signs: the hash and its history entry are saved before anything is broadcast. */
    method SignTransaction(id: Id, hash: Hash, nonce: nat)
      requires Valid() && id in approvals && approvals[id].stage == Claimed && jobs[id].kind == Transacting
      requires !HasLine(transactions, hash) && hash !in handed
      modifies this`transactions, this`writes, this`awaited, this`approvals
      ensures Valid() && approvals == old(approvals)[id := Approval(SavingSigned, Some(hash))]
      ensures transactions == [EntryOf(jobs[id], hash, nonce)] + old(transactions)
      ensures writes == old(writes) + [transactions] && awaited == Queued(|old(writes)|)
      ensures KeepsWords(old(transactions), transactions, {})
    {
      var entry := EntryOf(jobs[id], hash, nonce);
      NewEntryKeeps(transactions, entry, handed);
      EntryKeepsWords(transactions, entry);
      Proceed(id, Approval(SavingSigned, Some(hash)), [entry] + transactions);
    }

    /** The entry of an approved transaction takes a new status, and the change is saved. */
    method Mark(id: Id, stage: Stage, status: JournalStatus)
      requires Valid() && id in approvals && approvals[id].hash.Some? && jobs[id].kind == Transacting
      requires stage in {SavingRelease, SavingAnswer, Failing}
      requires stage != SavingAnswer ==> approvals[id].hash.value !in handed
      requires stage != Failing ==> status !in {SignedNotSubmitted, CancelledBeforeBroadcast}
      modifies this`transactions, this`writes, this`awaited, this`approvals
      ensures Valid() && approvals == old(approvals)[id := old(approvals)[id].(stage := stage)]
      ensures transactions == SetStatus(old(transactions), old(approvals)[id].hash.value, status)
      ensures writes == old(writes) + [transactions] && awaited == Queued(|old(writes)|)
      ensures !IsFinal(status) ==> KeepsWords(old(transactions), transactions, {old(approvals)[id].hash.value})
      ensures !IsFinal(LineOf(old(transactions), old(approvals)[id].hash.value).status) ==>
                KeepsWords(old(transactions), transactions, {})
    {
      var hash := approvals[id].hash.value;
      MarkKeepsWords(transactions, hash, status);
      MarkedEntryKeeps(transactions, hash, status, jobs[id], handed);
      Proceed(id, approvals[id].(stage := stage), SetStatus(transactions, hash, status));
    }

    /** The catch: a transaction still marked signed is cancelled and saved; anything later stays uncertain. */
    method FailApproval(id: Id)
      requires Valid() && id in approvals && approvals[id].stage !in {Failing, SavingRecord, SavingEnd}
      modifies this`transactions, this`writes, this`awaited, this`approvals, this`walletBusy, this`jobs, this`holder
      ensures Valid()
      ensures
        var a := old(approvals)[id];
        if a.hash.Some? && LineOf(old(transactions), a.hash.value).status == SignedNotSubmitted
        then transactions == SetStatus(old(transactions), a.hash.value, CancelledBeforeBroadcast)
             && approvals == old(approvals)[id := a.(stage := Failing)] && jobs == old(jobs) && holder == Approving(id)
             && writes == old(writes) + [transactions] && awaited == Queued(|old(writes)|)
        else transactions == old(transactions) && writes == old(writes) && awaited == old(awaited)
             && approvals == old(approvals) - {id} && jobs == old(jobs) - {id} && holder == Nobody
      ensures KeepsWords(old(transactions), transactions, {})
    {
      if approvals[id].hash.Some? && LineOf(transactions, approvals[id].hash.value).status == SignedNotSubmitted {
        SignedIsNotHanded(id);
        Mark(id, Failing, CancelledBeforeBroadcast);
      } else {
        Release(id);
      }
    }

    lemma SignedIsNotHanded(id: Id)
      requires Valid() && id in approvals && approvals[id].hash.Some?
      requires LineOf(transactions, approvals[id].hash.value).status == SignedNotSubmitted
      ensures approvals[id].hash.value !in handed && jobs[id].kind == Transacting
    {
    }

    /** After the cancelled entry's save: the site is answered, unless that save threw. */
    method Failed(id: Id)
      requires Valid() && id in approvals && approvals[id].stage == Failing && (awaited == Saved || awaited == NotSaved)
      modifies this`walletBusy, this`jobs, this`approvals, this`holder, this`left
      ensures Valid() && holder == Nobody && approvals == old(approvals) - {id}
      ensures if awaited == Saved then jobs == old(jobs) - {id} && left == old(left)
              else jobs == old(jobs) && left == old(left) + {id}
    {
      if awaited == Saved {
        Release(id);
      } else {
        Abandon(id);
      }
    }

    /** The signed entry is durable: uncertainty is recorded next, still before the broadcast. */
    method SignedSaved(id: Id)
      requires Valid() && id in approvals && approvals[id].stage == SavingSigned
      requires awaited == Saved || awaited == NotSaved
      modifies this`transactions, this`writes, this`awaited, this`approvals, this`walletBusy, this`jobs, this`holder
      ensures Valid()
      ensures
        var a := old(approvals)[id];
        var proceeds := old(awaited) == Saved && !old(jobs)[id].cancelled;
        if proceeds || LineOf(old(transactions), a.hash.value).status == SignedNotSubmitted
        then transactions == SetStatus(old(transactions), a.hash.value,
                                       if proceeds then BroadcastUncertain else CancelledBeforeBroadcast)
             && approvals == old(approvals)[id := a.(stage := if proceeds then SavingRelease else Failing)]
             && writes == old(writes) + [transactions] && awaited == Queued(|old(writes)|)
             && jobs == old(jobs) && holder == Approving(id)
        else transactions == old(transactions) && writes == old(writes) && awaited == old(awaited)
             && approvals == old(approvals) - {id} && jobs == old(jobs) - {id} && holder == Nobody
      ensures
        var hash := old(approvals)[id].hash.value;
        KeepsWords(old(transactions), transactions,
                   if old(awaited) == Saved && !old(jobs)[id].cancelled then {hash} else {})
    {
      if awaited == NotSaved || jobs[id].cancelled {
        FailApproval(id);
      } else {
        Mark(id, SavingRelease, BroadcastUncertain);
      }
    }

    /** The bytes go to the transport only once storage, and every later write, holds the uncertain entry. */
    method HandOver(id: Id)
      requires Valid() && id in approvals && approvals[id].stage == SavingRelease
      requires awaited == Saved || awaited == NotSaved
      modifies this`transactions, this`writes, this`awaited, this`approvals, this`walletBusy, this`jobs, this`holder,
               this`handed
      ensures Valid()
      ensures var hash := old(approvals)[id].hash.value;
              if old(awaited) == Saved && !old(jobs)[id].cancelled
              then handed == old(handed) + {hash} && CommittedInAll(transactions, stored, writes, hash)
                   && hash !in old(handed) && transactions == old(transactions) && holder == Approving(id)
                   && approvals == old(approvals)[id := old(approvals)[id].(stage := Submitting)] && jobs == old(jobs)
              else handed == old(handed) && transactions == old(transactions)
                   && holder == Nobody && jobs == old(jobs) - {id}
    {
      if awaited == NotSaved || jobs[id].cancelled {
        FailApproval(id);
      } else {
        handed := handed + {approvals[id].hash.value};
        approvals := approvals[id := approvals[id].(stage := Submitting)];
        assert ApprovalInv(jobs[id], approvals[id]);
        OnlyApproval(id);
      }
    }

    /** Whatever the transport answers, or none: the entry is marked and saved, or stays uncertain. */
    method Submitted(id: Id, answer: Option<JournalStatus>)
      requires Valid() && id in approvals && approvals[id].stage == Submitting
      requires answer.Some? ==> answer.value in {JournalStatus.Submitted, BroadcastUncertain}
      modifies this`transactions, this`writes, this`awaited, this`approvals, this`walletBusy, this`jobs, this`holder
      ensures Valid()
      ensures if answer.Some?
              then transactions == SetStatus(old(transactions), old(approvals)[id].hash.value, answer.value)
                   && writes == old(writes) + [transactions] && holder == Approving(id)
              else transactions == old(transactions) && jobs == old(jobs) - {id} && holder == Nobody
      ensures KeepsWords(old(transactions), transactions,
                         if answer.Some? then {old(approvals)[id].hash.value} else {})
    {
      if answer.None? {
        FailApproval(id);
      } else {
        Mark(id, SavingAnswer, answer.value);
      }
    }

    method AnswerSaved(id: Id)
      requires Valid() && id in approvals && approvals[id].stage == SavingAnswer
      requires awaited == Saved || awaited == NotSaved
      modifies this`transactions, this`writes, this`awaited, this`approvals, this`walletBusy, this`jobs, this`holder
      ensures Valid() && transactions == old(transactions) && jobs == old(jobs) - {id} && holder == Nobody
    {
      if awaited == Saved {
        Release(id);
      } else {
        FailApproval(id);
      }
    }

    // ---- Mint sessions ------------------------------------------------------------------------------

    /** History moves forward under whoever holds the mutex. */
    method Advance(lines: seq<Line>)
      requires Valid() && Advances(transactions, lines)
      modifies this`transactions
      ensures Valid() && transactions == lines && KeepsWords(old(transactions), transactions, {})
    {
      AdvancingKeepsWords(transactions, lines);
      ClosingKeeps(transactions, lines);
      forall h | LinesCommit(transactions, h) ensures LinesCommit(lines, h) {
        AdvancingCommits(transactions, lines, h);
      }
      forall h, job | IsEntryOf(transactions, h, job) ensures IsEntryOf(lines, h, job) {
        AdvancingKeepsEntry(transactions, lines, h, job);
      }
      transactions := lines;
    }

    /** Saves the ledger for a session that did not start yet. */
    method SaveLedger(id: Id, stage: Stage)
      requires Valid() && id in approvals && approvals[id].hash.None? && jobs[id].kind == Minting
      requires stage in {SavingRecord, SavingEnd}
      modifies this`writes, this`awaited, this`approvals
      ensures Valid() && approvals == old(approvals)[id := Approval(stage, None)]
      ensures writes == old(writes) + [transactions] && awaited == Queued(|old(writes)|)
    {
      SavingKeeps(transactions, transactions, stored, writes, handed);
      approvals := approvals[id := Approval(stage, None)];
      awaited := Queued(|writes|);
      writes := writes + [transactions];
      assert ApprovalInv(jobs[id], approvals[id]);
      OnlyApproval(id);
    }

    /** Write A: one write holds the new record, the ends of stale ones and their cancelled entries. */
    method SaveRecord(id: Id, sessions: seq<Record>)
      requires Valid() && id in approvals && approvals[id].stage == Claimed && jobs[id].kind == Minting
      modifies this`transactions, this`writes, this`awaited, this`approvals
      ensures Valid() && approvals == old(approvals)[id := Approval(SavingRecord, None)]
      ensures transactions == StaleLines(sessions, old(transactions), jobs[id].owner, jobs[id].genesis)
      ensures writes == old(writes) + [transactions] && awaited == Queued(|old(writes)|)
      ensures KeepsWords(old(transactions), transactions, {})
    {
      StaleLinesAdvance(sessions, transactions, jobs[id].owner, jobs[id].genesis);
      Advance(StaleLines(sessions, transactions, jobs[id].owner, jobs[id].genesis));
      SaveLedger(id, SavingRecord);
    }

    /** The session starts once its record is saved: its job is answered, and it keeps the mutex. A record whose job was
        cancelled meanwhile ends at once, and that is saved too; any refusal drops the job and gives the mutex back. */
    method StartSession(id: Id, session: Id) returns (started: bool)
      requires Valid() && id in approvals && approvals[id].stage == SavingRecord
      requires awaited == Saved || awaited == NotSaved
      modifies this`walletBusy, this`jobs, this`approvals, this`holder, this`session, this`writes, this`awaited
      ensures Valid() && (started <==> old(awaited) == Saved && !old(jobs)[id].cancelled)
      ensures if started
              then holder == Running && jobs == old(jobs) - {id} && approvals == old(approvals) - {id}
                   && this.session == Some(Session(session, old(jobs)[id].owner, old(jobs)[id].genesis))
              else this.session == old(this.session)
      ensures old(awaited) == NotSaved ==>
                holder == Nobody && jobs == old(jobs) - {id} && approvals == old(approvals) - {id}
      ensures old(awaited) == Saved && old(jobs)[id].cancelled ==>
                && holder == Approving(id) && jobs == old(jobs)
                && approvals == old(approvals)[id := Approval(SavingEnd, None)]
      ensures if old(awaited) == Saved && old(jobs)[id].cancelled
              then writes == old(writes) + [transactions] && awaited == Queued(|old(writes)|)
              else writes == old(writes) && awaited == old(awaited)
    {
      started := awaited == Saved && !jobs[id].cancelled;
      if started {
        StartRun(id, session);
      } else if awaited == Saved {
        SaveLedger(id, SavingEnd);
      } else {
        Release(id);
      }
    }

    method StartRun(id: Id, session: Id)
      requires Valid() && id in approvals && approvals[id].stage == SavingRecord
      modifies this`jobs, this`approvals, this`holder, this`session
      ensures Valid() && holder == Running && jobs == old(jobs) - {id} && approvals == old(approvals) - {id}
      ensures this.session == Some(Session(session, old(jobs)[id].owner, old(jobs)[id].genesis))
    {
      var job := jobs[id];
      AllFinalIsOpenForAny(transactions, job.owner, job.genesis, Lots(session));
      jobs := jobs - {id};
      approvals := approvals - {id};
      this.session, holder := Some(Session(session, job.owner, job.genesis)), Running;
    }

    /** The end of a record that never started was saved, or not: the refusal is answered either way. */
    method EndSaved(id: Id)
      requires Valid() && id in approvals && approvals[id].stage == SavingEnd
      requires awaited == Saved || awaited == NotSaved
      modifies this`walletBusy, this`jobs, this`approvals, this`holder
      ensures Valid() && holder == Nobody && jobs == old(jobs) - {id} && approvals == old(approvals) - {id}
    {
      Release(id);
    }

    /** The running session journals a lot it signed. */
    method AddLot(l: Line)
      requires Valid() && session.Some? && !HasLine(transactions, l.hash) && l.session == Some(session.value.id)
      requires l.owner == session.value.owner && l.genesis == session.value.genesis && l.hash !in handed
      modifies this`transactions
      ensures Valid() && transactions == [l] + old(transactions) && KeepsWords(old(transactions), transactions, {})
    {
      EntryKeepsWords(transactions, l);
      OwnEntryKeeps(transactions, l);
      forall h | h in handed ensures LinesCommit([l] + transactions, h) {
        NewLineCommits(transactions, l, h);
      }
      transactions := [l] + transactions;
    }

    /** It marks one of its own entries. */
    method MarkLot(hash: Hash, status: JournalStatus)
      requires Valid() && session.Some? && HasLine(transactions, hash) && hash !in handed
      requires LineOf(transactions, hash).session == Some(session.value.id)
      requires LineOf(transactions, hash).owner == session.value.owner
      requires LineOf(transactions, hash).genesis == session.value.genesis
      modifies this`transactions
      ensures Valid() && transactions == SetStatus(old(transactions), hash, status)
      ensures KeepsWords(old(transactions), transactions,
                         if LineOf(old(transactions), hash).status == status then {} else {hash})
    {
      MarkKeepsWords(transactions, hash, status);
      OwnStatusKeeps(transactions, FindLine(transactions, hash), status);
      forall h | h in handed ensures LinesCommit(SetStatus(transactions, hash, status), h) {
        NewStatusCommits(transactions, hash, status, h);
      }
      transactions := SetStatus(transactions, hash, status);
    }

    /** The session's run settled: only then is the mutex given back. */
    method SessionSettled()
      requires Valid() && session.Some?
      modifies this`walletBusy, this`session, this`holder
      ensures Valid() && session.None? && holder == Nobody
    {
      session, walletBusy, holder := None, false, Nobody;
    }

    // ---- History, storage and restart ---------------------------------------------------------------

    /** `syncHistory` asks the indexer about one entry, unless it is final. */
    method AskHistory(hash: Hash)
      requires Valid() && reading.None? && HasLine(transactions, hash)
      modifies this`reading
      ensures Valid()
      ensures reading == if IsFinal(LineOf(transactions, hash).status) then None else Some(Reading(hash, AskedIndexer))
    {
      if !IsFinal(LineOf(transactions, hash).status) {
        reading := Some(Reading(hash, AskedIndexer));
      }
    }

    /** One read of the entry is over; `next` is what is asked about it now. */
    method Receive(m: Line, next: Option<Asked>)
      requires Valid() && reading.Some? && Advances(transactions, Rewritten(transactions, reading.value.entry, m))
      modifies this`transactions, this`reading
      ensures Valid() && transactions == Rewritten(old(transactions), old(reading).value.entry, m)
      ensures KeepsWords(old(transactions), transactions, {})
      ensures reading == if next.Some? then Some(Reading(old(reading).value.entry, next.value)) else None
    {
      var entry := reading.value.entry;
      Advance(Rewritten(transactions, entry, m));
      reading := if next.Some? then Some(Reading(entry, next.value)) else None;
      assert Known();
    }

    /** The entry may have become final during the await: then no answer, and no failure, changes it. */
    method HistoryAnswered(answer: Option<Reply>)
      requires Valid() && reading.Some? && reading.value.asked == AskedIndexer
      modifies this`transactions, this`reading
      ensures Valid() && KeepsWords(old(transactions), transactions, {})
      ensures
        var entry := old(reading).value.entry;
        var l := LineOf(old(transactions), entry);
        var m := Read(l, if answer.None? then Unread(l) else FirstRead(l, answer.value));
        && transactions == Rewritten(old(transactions), entry, m)
        && reading == if !IsFinal(l.status) && answer.Some? && MayHaveExpired(m)
                      then Some(Reading(entry, AskedFinality)) else None
      ensures
        var entry := old(reading).value.entry;
        var l := LineOf(old(transactions), entry);
        && OnlyEntry(old(transactions), transactions, entry)
        && if l.status in {HistoryFinalized, HistoryExpired, CancelledBeforeBroadcast}
           then transactions == old(transactions)
           else FirstAnswered(l, LineOf(transactions, entry), answer)
      ensures
        var entry := old(reading).value.entry;
        reading.Some?
        <==> && answer.Some?
             && LineOf(old(transactions), entry).status
                !in {HistoryFinalized, HistoryExpired, CancelledBeforeBroadcast}
             && LineOf(transactions, entry).status in {HistoryPending, HistoryUnknown, BroadcastUncertain}
    {
      AnswersMean(transactions, reading.value.entry, answer);
      var l := LineOf(transactions, reading.value.entry);
      var m := Read(l, if answer.None? then Unread(l) else FirstRead(l, answer.value));
      ReadingAdvances(transactions, reading.value.entry, answer);
      Receive(m, if !IsFinal(l.status) && answer.Some? && MayHaveExpired(m) then Some(AskedFinality) else None);
    }

    /** Finality is past the entry's era, is not, or could not be read. */
    method FinalityAnswered(pastEra: Option<bool>)
      requires Valid() && reading.Some? && reading.value.asked == AskedFinality
      modifies this`transactions, this`reading
      ensures Valid() && KeepsWords(old(transactions), transactions, {})
      ensures
        var entry := old(reading).value.entry;
        var l := LineOf(old(transactions), entry);
        && transactions == Rewritten(old(transactions), entry, Read(l, if pastEra.None? then Unread(l) else l))
        && reading == if !IsFinal(l.status) && pastEra == Some(true) then Some(Reading(entry, AskedAgain)) else None
      ensures
        var entry := old(reading).value.entry;
        var l := LineOf(old(transactions), entry);
        var final := l.status in {HistoryFinalized, HistoryExpired, CancelledBeforeBroadcast};
        && OnlyEntry(old(transactions), transactions, entry) && (reading.Some? <==> !final && pastEra == Some(true))
        && LineOf(transactions, entry) == if !final && pastEra.None? then l.(status := HistoryUnknown) else l
    {
      AnswersMean(transactions, reading.value.entry, None);
      RewrittenOnce(transactions, reading.value.entry, LineOf(transactions, reading.value.entry));
      var l := LineOf(transactions, reading.value.entry);
      UnreadAdvances(transactions, reading.value.entry, pastEra.None?);
      Receive(Read(l, if pastEra.None? then Unread(l) else l),
              if !IsFinal(l.status) && pastEra == Some(true) then Some(AskedAgain) else None);
    }

    /** Asked after finality passed the era, so an entry still unknown has expired. */
    method HistoryAnsweredAgain(answer: Option<Reply>)
      requires Valid() && reading.Some? && reading.value.asked == AskedAgain
      modifies this`transactions, this`reading
      ensures Valid() && KeepsWords(old(transactions), transactions, {}) && reading.None?
      ensures
        var entry := old(reading).value.entry;
        var l := LineOf(old(transactions), entry);
        transactions == Rewritten(old(transactions), entry,
                                  Read(l, if answer.None? then Unread(l) else SecondRead(l, answer.value)))
      ensures
        var entry := old(reading).value.entry;
        var l := LineOf(old(transactions), entry);
        && OnlyEntry(old(transactions), transactions, entry)
        && if l.status in {HistoryFinalized, HistoryExpired, CancelledBeforeBroadcast}
           then transactions == old(transactions)
           else SecondAnswered(l, LineOf(transactions, entry), answer)
    {
      AnswersMean(transactions, reading.value.entry, answer);
      var l := LineOf(transactions, reading.value.entry);
      ReadingAdvances(transactions, reading.value.entry, answer);
      Receive(Read(l, if answer.None? then Unread(l) else SecondRead(l, answer.value)), None);
    }

    /** Any other operation's save carries the same history. */
    method Save()
      requires Valid()
      modifies this`writes
      ensures Valid() && writes == old(writes) + [transactions]
    {
      writes := writes + [transactions];
    }

    /** A write settles; one that failed may have landed all the same. */
    method WriteDone(ok: bool, landed: bool)
      requires Valid() && writes != [] && (ok ==> landed)
      modifies this`stored, this`writes, this`awaited
      ensures Valid() && writes == old(writes)[1..] && awaited == NextWait(old(awaited), ok)
      ensures stored == if landed then old(writes)[0] else old(stored)
    {
      if holder.Approving? {
        WriteKeepsApproval(jobs[holder.job], approvals[holder.job], transactions, stored, writes, awaited, handed, ok,
                           landed);
      }
      WriteKeeps(transactions, stored, writes, handed, landed);
      stored, writes, awaited := if landed then writes[0] else stored, writes[1..], NextWait(awaited, ok);
      assert Outstanding();
      assert holder.Approving? ==> ApprovalInv(jobs[holder.job], approvals[holder.job]);
    }

    /** The worker dies at any point and starts again from storage: no job, session or mutex survives. */
    method Restart()
      requires Valid()
      modifies this
      ensures Valid() && transactions == RestartLines(old(stored)) && stored == old(stored) && handed == old(handed)
      ensures holder == Nobody && jobs == map[] && session.None? && left == {}
      ensures KeepsWords(old(stored), transactions, {})
    {
      Forget();
      Reload();
    }

    /** What was in memory is gone. */
    method Forget()
      requires Valid()
      modifies this`walletBusy, this`jobs, this`creations, this`approvals, this`session, this`reading, this`writes,
               this`awaited, this`holder, this`left
      ensures Valid() && holder == Nobody && jobs == map[] && session.None? && left == {}
      ensures writes == [] && awaited == NoWait && reading.None?
    {
      ForgetJobs();
      writes, awaited, reading := [], NoWait, None;
    }

    method ForgetJobs()
      requires Outstanding() && Known()
      modifies this`walletBusy, this`jobs, this`creations, this`approvals, this`session, this`holder, this`left
      ensures Valid() && holder == Nobody && jobs == map[] && session.None? && left == {}
    {
      walletBusy, jobs, creations, approvals := false, map[], map[], map[];
      session, holder, left := None, Nobody, {};
    }

    method Reload()
      requires Valid() && holder == Nobody && writes == [] && awaited == NoWait && reading.None?
      modifies this`transactions
      ensures Valid() && transactions == RestartLines(stored) && KeepsWords(stored, transactions, {})
    {
      RestartAdvances(stored);
      AdvancingKeepsWords(stored, RestartLines(stored));
      ClosingKeeps(stored, RestartLines(stored));
      forall h | h in handed ensures LinesCommit(RestartLines(stored), h) {
        AdvancingCommits(stored, RestartLines(stored), h);
      }
      transactions := RestartLines(stored);
      NothingGated();
    }

    // ---- What always holds --------------------------------------------------------------------------

    /** Every operation in progress that needs the mutex. */
    ghost function InProgress(): set<Holder>
      reads this
    {
      (set c <- creations.Keys | creations[c].kind != Connecting && creations[c].job.None? :: Creating(c))
      + (set j <- jobs.Keys | jobs[j].kind != Connecting && jobs[j].phase == InReview :: Reviewing(j))
      + (set j <- approvals.Keys :: Approving(j))
      + (if session.Some? then {Running} else {})
    }

    /** The mutex is taken exactly while one operation is in progress, and never more than one is. */
    lemma BusyMeansOneHolder()
      requires Valid()
      ensures InProgress() == if walletBusy then {holder} else {}
    {
    }

    /** Every job being signed holds the mutex, exactly as long as no failed save left one behind. */
    lemma SigningHoldsTheMutex()
      requires Valid()
      ensures (forall j <- jobs.Keys :: IsSigning(jobs[j]) ==> holder == Approving(j)) <==> left == {}
    {
      if j :| j in left {
        assert IsSigning(jobs[j]) && j !in approvals;
      }
    }

    /** In memory, in storage and in every write on its way, an account's outstanding entries are one operation's. */
    lemma OneOperationPerAccount(x: seq<Line>, owner: Id, genesis: Id) returns (op: Operation)
      requires Valid() && (x == transactions || x == stored || x in writes)
      ensures OpenFor(x, owner, genesis, op)
    {
      assert Sole(x);
      op := SoleMeansOneOperation(x, owner, genesis);
    }

    /** A transaction that was handed over is never taken for one that was not, and until history finalizes it as
        run or expired it gates its account, also after a restart from any copy. */
    lemma HandedGates(x: seq<Line>, hash: Hash)
      requires Valid() && hash in handed && (x == transactions || x == stored || x in writes)
      ensures HasLine(RestartLines(x), hash)
      ensures
        var l := LineOf(RestartLines(x), hash);
        l.status in {HistoryFinalized, HistoryExpired} || Gates(RestartLines(x), l.owner, l.genesis)
    {
      assert LinesCommit(x, hash);
      RestartAdvances(x);
      AdvancingCommits(x, RestartLines(x), hash);
    }
  }

  // ---- Two runs -------------------------------------------------------------------------------------

  /** A new wallet prepares a transaction. */
  method PrepareFirst() returns (w: Wallet)
    ensures w.Valid() && fresh(w) && w.reading.None? && w.left == {} && w.handed == {} && w.jobs == map[]
    ensures w.creations == map[0 := Creation(Transacting, 0, 0, true, None)] && w.approvals == map[]
    ensures w.writes == [] && w.transactions == []
  {
    w := new Wallet([]);
    var created := w.CreateJob(0, Transacting, 0, 0, true);
    assert AllFinal(w.transactions, 0, 0);
    var passed := w.PassGate(0);
  }

  /** And reviews it. */
  method ReviewFirst() returns (w: Wallet)
    ensures w.Valid() && fresh(w) && w.reading.None? && w.left == {} && w.handed == {}
    ensures w.jobs == map[1 := Job(Transacting, 0, 0, InReview, false)] && w.creations == map[] && w.approvals == map[]
    ensures w.writes == [] && w.transactions == []
  {
    w := PrepareFirst();
    w.InsertJob(0, 1);
    w.WindowOpened(0);
  }

  method ApproveFirst() returns (w: Wallet)
    ensures w.Valid() && fresh(w) && w.reading.None? && w.left == {} && w.handed == {}
    ensures w.jobs == map[1 := Job(Transacting, 0, 0, InSigning, false)] && w.creations == map[]
    ensures w.approvals == map[1 := Approval(Claimed, None)] && w.writes == [] && w.transactions == []
  {
    w := ReviewFirst();
    var claimed := w.Claim(1, true);
  }

  method EnterFirst() returns (w: Wallet)
    ensures w.Valid() && fresh(w) && w.reading.None? && w.left == {} && w.handed == {}
    ensures w.jobs == map[1 := Job(Transacting, 0, 0, InSigning, false)] && w.creations == map[]
    ensures w.approvals == map[1 := Approval(SavingSigned, Some(7))] && |w.writes| == 1 && w.awaited == Queued(0)
    ensures w.transactions == [Line(7, 0, 0, 0, SignedNotSubmitted, None, None, None, None)]
  {
    w := ApproveFirst();
    w.SignTransaction(1, 7, 0);
  }

  /** It is approved and signed; its entry is saved, or the save fails. */
  method SignFirst(saved: bool) returns (w: Wallet)
    ensures w.Valid() && fresh(w) && w.reading.None? && w.left == {} && w.handed == {}
    ensures w.jobs == map[1 := Job(Transacting, 0, 0, InSigning, false)] && w.creations == map[]
    ensures w.approvals == map[1 := Approval(SavingSigned, Some(7))]
    ensures w.writes == [] && w.awaited == if saved then Saved else NotSaved
    ensures w.transactions == [Line(7, 0, 0, 0, SignedNotSubmitted, None, None, None, None)]
  {
    w := EnterFirst();
    w.WriteDone(saved, saved);
  }

  /** History finalizes the only entry. */
  method FinalizeFirst(w: Wallet)
    requires w.Valid() && w.reading.None? && |w.transactions| == 1 && !IsFinal(w.transactions[0].status)
    modifies w`transactions, w`reading
    ensures w.Valid() && w.reading.None?
    ensures |w.transactions| == 1 && w.transactions[0].hash == old(w.transactions)[0].hash
    ensures w.transactions[0].status == HistoryFinalized
  {
    var hash := w.transactions[0].hash;
    assert FindLine(w.transactions, hash) == 0;
    w.AskHistory(hash);
    w.HistoryAnswered(Some(Reply(HistoryFinalized, None, None, None)));
  }

  /** While a signed entry is saved, history finalizes it: the approval goes on and the entry is not final any more. */
  method SignedWordReopens() returns (before: Line, after: Line)
    ensures before.hash == after.hash == 7 && before.status == HistoryFinalized && after.status == BroadcastUncertain
  {
    var w := SignFirst(true);
    FinalizeFirst(w);
    before := w.transactions[0];
    assert FindLine(w.transactions, 7) == 0;
    w.SignedSaved(1);
    after := w.transactions[0];
  }

  method MarkFirst() returns (w: Wallet)
    ensures w.Valid() && fresh(w) && w.reading.None? && w.awaited == Queued(0) && |w.writes| == 1
    ensures w.approvals == map[1 := Approval(SavingRelease, Some(7))] && 1 in w.jobs && !w.jobs[1].cancelled
    ensures |w.transactions| == 1 && w.transactions[0].hash == 7 && w.transactions[0].status == BroadcastUncertain
  {
    w := SignFirst(true);
    assert FindLine(w.transactions, 7) == 0;
    w.SignedSaved(1);
  }

  /** The transaction is handed over. */
  method SubmitFirst() returns (w: Wallet)
    ensures w.Valid() && fresh(w) && w.reading.None?
    ensures w.approvals == map[1 := Approval(Submitting, Some(7))] && 1 in w.jobs
    ensures |w.transactions| == 1 && w.transactions[0].hash == 7 && w.transactions[0].status == BroadcastUncertain
  {
    w := MarkFirst();
    w.WriteDone(true, true);
    w.HandOver(1);
  }

  /** While it is submitted, history finalizes it: the transport's answer reopens it too. */
  method SubmittedWordReopens() returns (before: Line, after: Line)
    ensures before.hash == after.hash == 7 && before.status == HistoryFinalized && after.status == Submitted
  {
    var w := SubmitFirst();
    FinalizeFirst(w);
    before := w.transactions[0];
    assert FindLine(w.transactions, 7) == 0;
    w.Submitted(1, Some(Submitted));
    after := w.transactions[0];
  }

  /** The entry could not be saved: it is cancelled, and that is saved next. */
  method CancelFirst() returns (w: Wallet)
    ensures w.Valid() && fresh(w) && w.left == {} && 1 in w.jobs && IsSigning(w.jobs[1]) && w.creations == map[]
    ensures w.approvals == map[1 := Approval(Failing, Some(7))] && |w.writes| == 1 && w.awaited == Queued(0)
  {
    w := SignFirst(false);
    assert FindLine(w.transactions, 7) == 0;
    w.SignedSaved(1);
  }

  /** That save fails too: the job stays, still being signed. */
  method LeaveFirst() returns (w: Wallet)
    ensures w.Valid() && fresh(w) && w.left == {1} && 1 in w.jobs && IsSigning(w.jobs[1]) && w.holder == Nobody
    ensures w.creations == map[]
  {
    w := CancelFirst();
    w.WriteDone(false, false);
    w.Failed(1);
  }

  /** The next operation takes the mutex all the same. */
  method JobIsLeftBehind() returns (w: Wallet)
    ensures w.Valid() && w.left == {1} && 1 in w.jobs && IsSigning(w.jobs[1]) && w.holder == Creating(2)
  {
    w := LeaveFirst();
    var created := w.CreateJob(2, Transacting, 0, 0, true);
  }
}
