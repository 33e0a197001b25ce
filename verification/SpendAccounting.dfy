/** Spend accounting: what a session has spent, may still be charged, and its admission bound. */
module SpendAccounting {
  import opened MintTypes

  function Charge(a: Attempt, ticket: nat): nat {
    a.fee + ticket
  }

  function CountStatus(attempts: seq<Attempt>, status: Status): nat {
    if attempts == [] then 0
    else
      var k := |attempts| - 1;
      CountStatus(attempts[..k], status) + if attempts[k].status == status then 1 else 0
  }

  // ---- The admission bound --------------------------------------------------------------------------

  /** Charges of the minted and lost-race attempts, in their order. */
  function CouldSucceed(attempts: seq<Attempt>, ticket: nat): seq<nat> {
    if attempts == [] then []
    else
      var k := |attempts| - 1;
      CouldSucceed(attempts[..k], ticket)
      + if AdmitsSuccessor(attempts[k].status) then [Charge(attempts[k], ticket)] else []
  }

  ghost predicate Descending(s: seq<nat>) {
    forall i, j :: 0 <= i < j < |s| ==> s[i] >= s[j]
  }

  function InsertDescending(x: nat, s: seq<nat>): (r: seq<nat>)
    requires Descending(s)
    ensures Descending(r) && |r| == |s| + 1
    ensures forall y :: y in r ==> y == x || y in s
  {
    if s == [] then [x]
    else if x >= s[0] then [x] + s
    else
      var r := InsertDescending(x, s[1..]);
      assert forall i :: 0 <= i < |r| ==> r[i] in r;
      assert forall y :: y in s[1..] ==> y <= s[0];
      [s[0]] + r
  }

  function SortDescending(s: seq<nat>): (r: seq<nat>)
    ensures Descending(r) && |r| == |s|
  {
    if s == [] then [] else InsertDescending(s[|s| - 1], SortDescending(s[..|s| - 1]))
  }

  /** Sum of the first `m` elements, or of all of them when there are fewer. */
  function SumFirst(s: seq<nat>, m: nat): nat {
    if m == 0 || s == [] then 0 else s[0] + SumFirst(s[1..], m - 1)
  }

  lemma {:induction false} InsertionPermutes(x: nat, s: seq<nat>)
    requires Descending(s)
    ensures multiset(InsertDescending(x, s)) == multiset(s) + multiset{x}
  {
    if s != [] && x < s[0] {
      InsertionPermutes(x, s[1..]);
      assert s == [s[0]] + s[1..];
    }
  }

  lemma {:induction false} SortPermutes(s: seq<nat>)
    ensures multiset(SortDescending(s)) == multiset(s)
  {
    if s != [] {
      var k := |s| - 1;
      assert s == s[..k] + [s[k]];
      SortPermutes(s[..k]);
      InsertionPermutes(s[k], SortDescending(s[..k]));
    }
  }

  /** As many of the largest such charges as there are minted attempts, summed. */
  function ProtocolBound(attempts: seq<Attempt>, ticket: nat): nat {
    SumFirst(SortDescending(CouldSucceed(attempts, ticket)), CountStatus(attempts, Minted))
  }

  /** A choice of payments: which attempts are taken to have been debited. */
  type Choice = seq<bool>

  function Chosen(choice: Choice): nat {
    if choice == [] then 0
    else Chosen(choice[..|choice| - 1]) + if choice[|choice| - 1] then 1 else 0
  }

  /** Total charge of the chosen attempts. */
  function ChosenCharge(attempts: seq<Attempt>, choice: Choice, ticket: nat): nat
    requires |choice| == |attempts|
  {
    if attempts == [] then 0
    else
      var k := |attempts| - 1;
      ChosenCharge(attempts[..k], choice[..k], ticket)
      + if choice[k] then Charge(attempts[k], ticket) else 0
  }

  /** Only payments that could have succeeded are chosen. */
  ghost predicate Plausible(attempts: seq<Attempt>, choice: Choice) {
    |choice| == |attempts| &&
    forall i :: 0 <= i < |attempts| && choice[i] ==> AdmitsSuccessor(attempts[i].status)
  }

  lemma {:induction false} DroppingTheLargestNeverGains(s: seq<nat>, m: nat)
    requires Descending(s) && s != []
    ensures SumFirst(s[1..], m) <= SumFirst(s, m)
  {
    if m > 0 && |s| > 1 {
      DroppingTheLargestNeverGains(s[1..], m - 1);
    }
  }

  /** The best `m` out of a descending list and one more element either leave it out or take it. */
  lemma {:induction false} InsertionIsBestChoice(x: nat, s: seq<nat>, m: nat)
    requires Descending(s) && m > 0
    ensures SumFirst(s, m) <= SumFirst(InsertDescending(x, s), m)
    ensures x + SumFirst(s, m - 1) <= SumFirst(InsertDescending(x, s), m)
    ensures SumFirst(InsertDescending(x, s), m) in {SumFirst(s, m), x + SumFirst(s, m - 1)}
  {
    if s == [] {
    } else if x >= s[0] {
      assert ([x] + s)[1..] == s;
      DroppingTheLargestNeverGains(s, m - 1);
    } else {
      var r := InsertDescending(x, s[1..]);
      assert ([s[0]] + r)[1..] == r;
      if m > 1 {
        InsertionIsBestChoice(x, s[1..], m - 1);
      }
    }
  }

  lemma SortedWithLast(attempts: seq<Attempt>, ticket: nat)
    requires attempts != []
    ensures
      var k := |attempts| - 1;
      var before := SortDescending(CouldSucceed(attempts[..k], ticket));
      SortDescending(CouldSucceed(attempts, ticket))
      == if AdmitsSuccessor(attempts[k].status) then InsertDescending(Charge(attempts[k], ticket), before)
         else before
  {
    var k := |attempts| - 1;
    var before := CouldSucceed(attempts[..k], ticket);
    var x := Charge(attempts[k], ticket);
    assert (before + [x])[..|before|] == before && before + [] == before;
  }

  /** No plausible choice of at most `m` payments charges more than the `m` largest charges. */
  lemma {:induction false} LargestChargesDominate(attempts: seq<Attempt>, ticket: nat, choice: Choice, m: nat)
    requires Plausible(attempts, choice) && Chosen(choice) <= m
    ensures ChosenCharge(attempts, choice, ticket)
         <= SumFirst(SortDescending(CouldSucceed(attempts, ticket)), m)
  {
    if attempts != [] {
      var k := |attempts| - 1;
      var before := CouldSucceed(attempts[..k], ticket);
      LargestChargesDominate(attempts[..k], ticket, choice[..k], if choice[k] then m - 1 else m);
      SortedWithLast(attempts, ticket);
      if AdmitsSuccessor(attempts[k].status) && m > 0 {
        InsertionIsBestChoice(Charge(attempts[k], ticket), SortDescending(before), m);
      }
    }
  }

  lemma ChoiceWithLast(attempts: seq<Attempt>, rest: Choice, take: bool, ticket: nat)
    requires attempts != [] && Plausible(attempts[..|attempts| - 1], rest)
    requires take ==> AdmitsSuccessor(attempts[|attempts| - 1].status)
    ensures
      var choice := rest + [take];
      var last := if take then Charge(attempts[|attempts| - 1], ticket) else 0;
      && Plausible(attempts, choice) && Chosen(choice) == Chosen(rest) + (if take then 1 else 0)
      && ChosenCharge(attempts, choice, ticket) == ChosenCharge(attempts[..|attempts| - 1], rest, ticket) + last
  {
    var k, choice := |attempts| - 1, rest + [take];
    assert choice[..k] == rest && choice[k] == take;
    assert forall i :: 0 <= i < k ==> attempts[i] == attempts[..k][i] && choice[i] == rest[i];
  }

  /** Some plausible choice of at most `m` payments charges exactly that much. */
  lemma {:induction false} LargestChargesAreAChoice(attempts: seq<Attempt>, ticket: nat, m: nat)
    returns (choice: Choice)
    ensures Plausible(attempts, choice) && Chosen(choice) <= m
    ensures ChosenCharge(attempts, choice, ticket)
         == SumFirst(SortDescending(CouldSucceed(attempts, ticket)), m)
  {
    if attempts == [] {
      choice := [];
    } else {
      var k := |attempts| - 1;
      var take := false;
      SortedWithLast(attempts, ticket);
      if AdmitsSuccessor(attempts[k].status) && m > 0 {
        var sorted := SortDescending(CouldSucceed(attempts[..k], ticket));
        var x := Charge(attempts[k], ticket);
        InsertionIsBestChoice(x, sorted, m);
        take := SumFirst(InsertDescending(x, sorted), m) != SumFirst(sorted, m);
      }
      var rest := LargestChargesAreAChoice(attempts[..k], ticket, if take then m - 1 else m);
      ChoiceWithLast(attempts, rest, take, ticket);
      choice := rest + [take];
    }
  }

  /** The admission bound is the largest total any `count(minted)` payments can have been debited. */
  lemma BoundDominates(attempts: seq<Attempt>, ticket: nat, choice: Choice)
    requires Plausible(attempts, choice) && Chosen(choice) <= CountStatus(attempts, Minted)
    ensures ChosenCharge(attempts, choice, ticket) <= ProtocolBound(attempts, ticket)
  {
    LargestChargesDominate(attempts, ticket, choice, CountStatus(attempts, Minted));
  }

  lemma BoundIsAttained(attempts: seq<Attempt>, ticket: nat) returns (choice: Choice)
    ensures Plausible(attempts, choice) && Chosen(choice) <= CountStatus(attempts, Minted)
    ensures ChosenCharge(attempts, choice, ticket) == ProtocolBound(attempts, ticket)
  {
    choice := LargestChargesAreAChoice(attempts, ticket, CountStatus(attempts, Minted));
  }
}
