/** What each admission decides: the first thing that stands against the payment, or the reservation. */
module Admissions {
  import opened MintTypes
  import opened SpendAccounting
  import opened SessionMachine
  import opened SnapshotMeaning

  // ---- Limits ---------------------------------------------------------------------------------------

  /** As many lots as approved are minted. */
  ghost predicate AllMinted(rec: Record) {
    |AllAs(rec.attempts, Minted)| >= rec.terms.maxLots
  }

  /** More races are lost than the terms allow signatures beyond the lots. */
  ghost predicate RacesLost(rec: Record) {
    |AllAs(rec.attempts, LostRace)| + rec.terms.maxLots > rec.terms.maxAttempts
  }

  /** Less than ten seconds are left to sign. */
  predicate TooLate(rec: Record, clock: int) {
    rec.deadline - clock <= 10_000
  }

  /** Each limit is named exactly when it is reached and none before it is, and none when none is. */
  lemma LimitsAreInOrder(rec: Record, soldOut: bool, clock: int, unlockDeadline: int)
    ensures
      var limit := Limits(rec, soldOut, clock, unlockDeadline);
      && (limit == Some(Completed) <==> AllMinted(rec))
      && (limit == Some(SoldOut) <==> soldOut && !AllMinted(rec))
      && (limit == Some(RaceLost) <==> RacesLost(rec) && !soldOut && !AllMinted(rec))
      && var before := AllMinted(rec) || soldOut || RacesLost(rec);
      && (limit == Some(AttemptLimit) <==> rec.used >= rec.terms.maxAttempts && !before)
      && var open := !before && rec.used < rec.terms.maxAttempts;
      && (limit == Some(Locked) <==> open && TooLate(rec, clock) && rec.deadline >= unlockDeadline)
      && (limit == Some(Deadline) <==> open && TooLate(rec, clock) && rec.deadline < unlockDeadline)
      && (limit == None <==> open && !TooLate(rec, clock))
  {
    StatusIsCounted(rec.attempts, Minted);
    StatusIsCounted(rec.attempts, LostRace);
  }

  // ---- What the attested block says -----------------------------------------------------------------

  function Last(rec: Record): Attempt
    requires rec.attempts != []
  {
    rec.attempts[|rec.attempts| - 1]
  }

  /** The attested block is not above the one the previous payment was born at. */
  predicate NotAbove(rec: Record, v: AttestedAsset) {
    rec.attempts != [] && v.block.height <= Last(rec).birth.height
  }

  /** The owner does not hold exactly one lot more for each minted one than at the first birth. */
  ghost predicate Unbalanced(rec: Record, v: AttestedAsset) {
    rec.attempts != [] && v.held != rec.attempts[0].held + rec.terms.lotAmount * |AllAs(rec.attempts, Minted)|
  }

  /** The token or its next lot is not the approved one, or the right that is current does not buy it. */
  predicate WrongLot(rec: Record, v: AttestedAsset, next: NextLot) {
    || !v.knownProfile || v.lotSize != rec.terms.lotAmount
    || !next.knownProfile || next.amount != rec.terms.lotAmount || next.asset != rec.terms.asset
    || !(1 <= next.lot <= 1000) || v.right != Some(next.anchor)
  }

  predicate BeyondCap(rec: Record, next: NextLot) {
    ProtocolBound(rec.attempts, rec.ticket) + next.fee + rec.ticket > rec.terms.maxSpend
  }

  /** The first objection of the attested block, if the limits leave the payment open. */
  ghost predicate ObjectionOf(rec: Record, v: AttestedAsset, next: NextLot, calls: nat, d: Decision) {
    if NotAbove(rec, v) then d == Reorganized
    else if Unbalanced(rec, v) || WrongLot(rec, v, next) then d == Finish(Unverified)
    else if next.fee > rec.terms.maxFeePerLot then d == Finish(FeeLimit)
    else if BeyondCap(rec, next) then d == Finish(SpendLimit)
    else calls < 2 && d == AnotherPass
  }

  ghost predicate Objected(rec: Record, v: AttestedAsset, next: NextLot, calls: nat) {
    NotAbove(rec, v) || Unbalanced(rec, v) || WrongLot(rec, v, next) || next.fee > rec.terms.maxFeePerLot
    || BeyondCap(rec, next) || calls < 2
  }

  // ---- What the account and the prepared payment say ------------------------------------------------

  /** The account signed something else since the previous payment. */
  predicate OtherActivity(rec: Record, account: Account) {
    rec.attempts != [] && account.nonce != Last(rec).nonce + 1
  }

  /** The prepared payment is not the attested lot's. */
  predicate WrongQuote(rec: Record, v: AttestedAsset, next: NextLot, q: Quote) {
    !q.callMatches || q.platformFee != next.fee || q.nativeFee != rec.ticket || q.birth != v.block
  }

  /** The worst case does not leave the account its frozen balance, or what keeps it alive. */
  predicate TooPoor(rec: Record, next: NextLot, account: Account, q: Quote) {
    var worst := q.networkFee * rec.margin + rec.tip + rec.ticket + next.fee;
    account.free < account.frozen + worst || account.free < q.existentialDeposit + worst
  }

  ghost predicate PreparedAs(rec: Record, v: AttestedAsset, next: NextLot, account: Account, q: Quote, d: Decision) {
    if OtherActivity(rec, account) then d == Finish(AccountActivity)
    else if WrongQuote(rec, v, next, q) then d == Finish(Unverified)
    else if q.nonce > account.nonce then d == Finish(AccountActivity)
    else if q.nonce < account.nonce then d == Retry
    else if TooPoor(rec, next, account, q) then d == Finish(InsufficientFunds)
    else d.Reserve? && ReservesLot(rec, v, next, q, d.attempt)
  }

  /** The reservation: the attested lot at the attested block, counted next, at its cost and worst case. */
  predicate ReservesLot(rec: Record, v: AttestedAsset, next: NextLot, q: Quote, a: Attempt) {
    && a.n == |rec.attempts| + 1 && a.status == Reserved && a.hash.None? && a.inclusion.None?
    && !a.finalized && !a.doubt
    && a.lot == next.lot && a.fee == next.fee && a.anchor == next.anchor
    && a.birth == v.block && a.minted == v.minted && a.held == v.held && a.nonce == q.nonce
    && a.networkFee == q.networkFee + rec.tip && a.reserveNetwork == q.networkFee * rec.margin + rec.tip
    && a.reserveProtocol == next.fee + rec.ticket
  }

  /** An admission decides what stands first against the payment: a limit, the attested block, the account and what was
      prepared for it; and reserves the attested lot if nothing does. */
  lemma AdmissionDecides(rec: Record, v: AttestedAsset, account: Account, q: Quote, clock: int, unlockDeadline: int,
                         calls: nat)
    ensures
      var d := Admission(rec, v, account, q, clock, unlockDeadline, calls);
      var limit := Limits(rec, v.next.None?, clock, unlockDeadline);
      if limit.Some? then d == Finish(limit.value)
      else
        && v.next.Some?
        && if Objected(rec, v, v.next.value, calls) then ObjectionOf(rec, v, v.next.value, calls, d)
           else PreparedAs(rec, v, v.next.value, account, q, d)
  {
    StatusIsCounted(rec.attempts, Minted);
  }
}
