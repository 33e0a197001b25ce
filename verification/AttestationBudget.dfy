/** The rolling budget of attestation calls: never more than eight in a minute, and the calls a payment's
    classification needs are free when it needs them. */
module AttestationBudget {

  const ROLLING_MINUTE: int := 60_000
  const ATTEST_CALLS_PER_MINUTE: nat := 8
  const CLASSIFY_CALLS: nat := 2
  const WAIT_SLICE_MS: int := 1_000

  predicate IsRecent(at: int, now: int) {
    now - at < ROLLING_MINUTE
  }

  /** How many calls are less than a minute old at `now`. */
  function CountRecent(log: seq<int>, now: int): nat {
    if log == [] then 0
    else
      var k := |log| - 1;
      CountRecent(log[..k], now) + if IsRecent(log[k], now) then 1 else 0
  }

  /** How many more calls the budget allows at time `t` if none is made before. */
  function FreeAt(log: seq<int>, t: int): int {
    ATTEST_CALLS_PER_MINUTE - CountRecent(log, t)
  }

  /** The calls less than a minute old. */
  function RecentOf(s: seq<int>, now: int): seq<int> {
    if s == [] then []
    else
      var k := |s| - 1;
      RecentOf(s[..k], now) + if IsRecent(s[k], now) then [s[k]] else []
  }

  ghost predicate Ascending(s: seq<int>) {
    forall i, j :: 0 <= i < j < |s| ==> s[i] <= s[j]
  }

  /** Any nine calls in a row span at least a minute. */
  ghost predicate Spaced(log: seq<int>) {
    forall i, j :: 0 <= i < j < |log| && j - i >= ATTEST_CALLS_PER_MINUTE ==> log[j] - log[i] >= ROLLING_MINUTE
  }

  /** Calls below `k` are at least a minute old, the others are not. */
  ghost predicate IsCut(log: seq<int>, now: int, k: nat) {
    k <= |log| && forall i :: 0 <= i < |log| ==> (i < k <==> !IsRecent(log[i], now))
  }

  /** In ascending order the recent calls are the last ones; they start at or after any `low` below which all are
      old. */
  lemma {:induction false} Cut(log: seq<int>, now: int, low: nat) returns (k: nat)
    requires Ascending(log) && low <= |log| && forall i :: 0 <= i < low ==> !IsRecent(log[i], now)
    ensures IsCut(log, now, k) && low <= k
  {
    k := 0;
    if log != [] {
      var last := |log| - 1;
      k := Cut(log[..last], now, if low <= last then low else last);
      assert k < last ==> IsRecent(log[k], now) && log[k] <= log[last];
      if !IsRecent(log[last], now) {
        k := |log|;
      }
    }
  }

  lemma {:induction false} CountOfCut(log: seq<int>, now: int, k: nat)
    requires IsCut(log, now, k)
    ensures CountRecent(log, now) == |log| - k
  {
    if log != [] {
      var last := |log| - 1;
      CountOfCut(log[..last], now, if k <= last then k else last);
    }
  }

  lemma {:induction false} FilterIsSuffix(s: seq<int>, now: int, k: nat)
    requires IsCut(s, now, k)
    ensures RecentOf(s, now) == s[k..]
  {
    if s != [] {
      var last := |s| - 1;
      if k == |s| {
        FilterIsSuffix(s[..last], now, last);
      } else {
        FilterIsSuffix(s[..last], now, k);
        assert s[k..] == s[..last][k..] + [s[last]];
      }
    }
  }

  // ---- No window holds more than eight --------------------------------------------------------------

  function CountWithin(s: seq<int>, from: int): nat {
    if s == [] then 0
    else
      var k := |s| - 1;
      CountWithin(s[..k], from) + if from <= s[k] < from + ROLLING_MINUTE then 1 else 0
  }

  /** Calls within a minute after `from` are some of the last ones before its end. */
  lemma {:induction false} WithinAreLast(s: seq<int>, from: int, low: nat)
    requires low <= |s| && forall i :: 0 <= i < low ==> s[i] < from
    ensures CountWithin(s, from) <= |s| - low
  {
    if |s| > low {
      WithinAreLast(s[..|s| - 1], from, low);
    } else if s != [] {
      WithinAreLast(s[..|s| - 1], from, low - 1);
    }
  }

  lemma {:induction false} LateCallsDoNotCount(s: seq<int>, from: int, high: nat)
    requires high <= |s| && forall i :: high <= i < |s| ==> s[i] >= from + ROLLING_MINUTE
    ensures CountWithin(s, from) == CountWithin(s[..high], from)
  {
    if high < |s| {
      LateCallsDoNotCount(s[..|s| - 1], from, high);
      assert s[..|s| - 1][..high] == s[..high];
    } else {
      assert s[..high] == s;
    }
  }

  lemma {:induction false} NoMoreThanEight(log: seq<int>, from: int)
    requires Ascending(log) && Spaced(log)
    ensures CountWithin(log, from) <= ATTEST_CALLS_PER_MINUTE
  {
    if |log| > ATTEST_CALLS_PER_MINUTE {
      var last := |log| - 1;
      var i := last - ATTEST_CALLS_PER_MINUTE;
      assert log[last] - log[i] >= ROLLING_MINUTE;
      if log[i] < from {
        WithinAreLast(log, from, i + 1);
      } else {
        LateCallsDoNotCount(log, from, last);
        NoMoreThanEight(log[..last], from);
      }
    } else {
      WithinAreLast(log, from, 0);
    }
  }

  /** The calls of the minute that begins at `from`. */
  ghost function Within(log: seq<int>, from: int): set<nat> {
    set i: nat | i < |log| && from <= log[i] < from + 60_000
  }

  lemma {:induction false} WithinIsCounted(log: seq<int>, from: int)
    ensures CountWithin(log, from) == |Within(log, from)|
  {
    if log == [] {
      assert Within(log, from) == {};
    } else {
      var k := |log| - 1;
      WithinIsCounted(log[..k], from);
      assert Within(log, from) == Within(log[..k], from) + if from <= log[k] < from + 60_000 then {k} else {};
    }
  }

  /** No window of a minute holds more than eight calls. */
  lemma EightInAnyMinute(log: seq<int>, from: int)
    requires Ascending(log) && Spaced(log)
    ensures |Within(log, from)| <= 8
  {
    NoMoreThanEight(log, from);
    WithinIsCounted(log, from);
  }

  // ---- The least wait -------------------------------------------------------------------------------

  /** Time alone only frees calls. */
  lemma {:induction false} FreeGrows(log: seq<int>, t: int, u: int)
    requires t <= u
    ensures FreeAt(log, t) <= FreeAt(log, u)
  {
    if log != [] {
      FreeGrows(log[..|log| - 1], t, u);
    }
  }

  /** The wait the budget asks for `n` calls, when the recent ones are `recent`. */
  function Wait(recent: seq<int>, n: nat, now: int): int
    requires |recent| <= ATTEST_CALLS_PER_MINUTE && n <= ATTEST_CALLS_PER_MINUTE
  {
    var free := ATTEST_CALLS_PER_MINUTE - |recent|;
    if free >= n then 0 else recent[n - free - 1] + ROLLING_MINUTE - now
  }

  /** `n` calls are free `d` milliseconds after `now`, if none is made before. */
  predicate FreeAfter(log: seq<int>, n: nat, now: int, d: nat) {
    FreeAt(log, now + d) >= n
  }

  ghost predicate IsLeastWait(log: seq<int>, n: nat, now: int, wait: int) {
    wait >= 0 && forall d: nat :: FreeAfter(log, n, now, d) <==> d >= wait
  }

  lemma WaitDecides(log: seq<int>, k: nat, n: nat, now: int, d: nat)
    requires Ascending(log) && IsCut(log, now, k) && |log| - k <= ATTEST_CALLS_PER_MINUTE
    requires n <= ATTEST_CALLS_PER_MINUTE
    ensures FreeAfter(log, n, now, d) <==> d >= Wait(log[k..], n, now)
  {
    CountOfCut(log, now, k);
    var l := Cut(log, now + d, 0);
    CountOfCut(log, now + d, l);
    FreeGrows(log, now, now + d);
    var free := ATTEST_CALLS_PER_MINUTE - (|log| - k);
    if free < n {
      var i := k + n - free - 1;
      assert log[k..][n - free - 1] == log[i];
      assert i < l <==> !IsRecent(log[i], now + d);
    }
  }

  /** `Wait` is exactly the least wait after which `n` calls are free. */
  lemma WaitIsLeast(log: seq<int>, k: nat, n: nat, now: int)
    requires Ascending(log) && IsCut(log, now, k) && |log| - k <= ATTEST_CALLS_PER_MINUTE
    requires n <= ATTEST_CALLS_PER_MINUTE
    ensures IsLeastWait(log, n, now, Wait(log[k..], n, now))
  {
    forall d: nat ensures FreeAfter(log, n, now, d) <==> d >= Wait(log[k..], n, now) {
      WaitDecides(log, k, n, now, d);
    }
    assert Wait(log[k..], n, now) >= 0 by {
      assert forall i :: 0 <= i < |log| - k ==> log[k..][i] == log[k + i] && IsRecent(log[k + i], now);
    }
  }

  /** While the calls are not free, the least wait is not over. */
  lemma WaitGoesOn(log: seq<int>, n: nat, start: int, wait: int, now: int)
    requires IsLeastWait(log, n, start, wait) && start <= now && FreeAt(log, now) < n
    ensures now < start + wait
  {
    assert !FreeAfter(log, n, start, now - start);
  }

  // ---- The log of all calls -------------------------------------------------------------------------

  /** The log of all calls, of which the budget forgot only calls at least a minute old. */
  ghost predicate WellKept(log: seq<int>, dropped: nat, now: int) {
    && Ascending(log) && Spaced(log) && (log != [] ==> log[|log| - 1] <= now)
    && dropped <= |log| && forall i :: 0 <= i < dropped ==> !IsRecent(log[i], now)
  }

  lemma KeptLater(log: seq<int>, dropped: nat, now: int, later: int)
    requires WellKept(log, dropped, now) && now <= later
    ensures WellKept(log, dropped, later) && FreeAt(log, now) <= FreeAt(log, later)
  {
    FreeGrows(log, now, later);
  }

  /** Filtering the remembered calls leaves exactly the recent ones of the log, at most eight. */
  lemma FilterForgets(log: seq<int>, dropped: nat, now: int) returns (k: nat)
    requires WellKept(log, dropped, now)
    ensures WellKept(log, k, now) && IsCut(log, now, k) && RecentOf(log[dropped..], now) == log[k..]
    ensures FreeAt(log, now) == ATTEST_CALLS_PER_MINUTE - (|log| - k) >= 0
  {
    k := Cut(log, now, dropped);
    CountOfCut(log, now, k);
    var rest := log[dropped..];
    assert IsCut(rest, now, k - dropped) by {
      assert forall i :: 0 <= i < |rest| ==> rest[i] == log[dropped + i];
    }
    FilterIsSuffix(rest, now, k - dropped);
    assert rest[k - dropped..] == log[k..];
    AtMostEight(log, now, k);
  }

  lemma NineCallsSpanAMinute(log: seq<int>, i: nat)
    requires Spaced(log) && i <= |log|
    ensures |log| - i > ATTEST_CALLS_PER_MINUTE ==> log[|log| - 1] - log[i] >= ROLLING_MINUTE
  {
  }

  lemma AtMostEight(log: seq<int>, now: int, k: nat)
    requires Ascending(log) && Spaced(log) && (log != [] ==> log[|log| - 1] <= now) && IsCut(log, now, k)
    ensures |log| - k <= ATTEST_CALLS_PER_MINUTE
  {
    NineCallsSpanAMinute(log, k);
    assert k < |log| ==> IsRecent(log[k], now);
  }

  lemma PushKeeps(log: seq<int>, dropped: nat, now: int)
    requires WellKept(log, dropped, now) && FreeAt(log, now) >= 1
    ensures WellKept(log + [now], dropped, now) && FreeAt(log + [now], now) == FreeAt(log, now) - 1
    ensures (log + [now])[dropped..] == log[dropped..] + [now]
  {
    var k := Cut(log, now, dropped);
    CountOfCut(log, now, k);
    var t := log + [now];
    assert t[..|log|] == log && t[|log|] == now;
    forall i | 0 <= i < |log|
      ensures log[i] <= now && (|log| - i >= ATTEST_CALLS_PER_MINUTE ==> now - log[i] >= ROLLING_MINUTE)
    {
      assert log[i] <= log[|log| - 1] || i == |log| - 1;
      assert i < k <==> !IsRecent(log[i], now);
    }
  }

  class AttestationCalls {
    var attestations: seq<int>   // times of the recent calls, oldest first
    var now: int
    ghost var log: seq<int>      // times of all calls ever made
    ghost var dropped: nat       // how many of them the budget forgot
    ghost var owed: nat          // calls the payment signed last still needs for its first classification

    ghost predicate Valid()
      reads this
    {
      && WellKept(log, dropped, now) && attestations == log[dropped..]
      && owed <= CLASSIFY_CALLS && FreeAt(log, now) >= owed
    }

    constructor (now: int)
      ensures Valid() && log == [] && this.now == now && owed == 0
    {
      attestations, this.now, log, dropped, owed := [], now, [], 0, 0;
    }

    /** The clock only goes forward. */
    method Sleep(ms: nat)
      requires Valid()
      modifies this`now
      ensures Valid() && now == old(now) + ms
    {
      KeptLater(log, dropped, now, now + ms);
      now := now + ms;
    }

    /** What is left of eight calls once those of the last minute are counted. */
    method Free() returns (free: int)
      requires Valid()
      modifies this`attestations, this`dropped
      ensures Valid() && free == FreeAt(log, now) >= 0
      ensures free == ATTEST_CALLS_PER_MINUTE - |attestations| && IsCut(log, now, dropped)
    {
      dropped := FilterForgets(log, dropped, now);
      attestations := RecentOf(attestations, now);
      free := ATTEST_CALLS_PER_MINUTE - |attestations|;
    }

    /** The least time after which `n` calls may follow each other, provided none is made meanwhile. */
    method Until(n: nat) returns (wait: int)
      requires Valid() && n <= ATTEST_CALLS_PER_MINUTE
      modifies this`attestations, this`dropped
      ensures Valid() && IsLeastWait(log, n, now, wait)
    {
      var free := Free();
      wait := if free >= n then 0 else attestations[n - free - 1] + ROLLING_MINUTE - now;
      assert wait == Wait(log[dropped..], n, now);
      WaitIsLeast(log, dropped, n, now);
    }

    /** One slice of waiting for the oldest call to be a minute old; a sleep may last longer. */
    method WaitSlice(late: nat)
      requires Valid() && IsCut(log, now, dropped) && attestations != []
      modifies this`now
      ensures Valid() && now > old(now)
    {
      assert attestations[0] == log[dropped] && IsRecent(log[dropped], now);
      var left := attestations[0] + ROLLING_MINUTE - now;
      Sleep((if left < WAIT_SLICE_MS then left else WAIT_SLICE_MS) + late);
    }

    /** On return one call may be made and `keep` are left besides it. */
    method Room(keep: nat) returns (waited: bool)
      requires Valid() && keep < ATTEST_CALLS_PER_MINUTE
      modifies this`attestations, this`dropped, this`now
      ensures Valid() && now >= old(now) && FreeAt(log, now) >= 1 + keep
      ensures waited <==> FreeAt(log, old(now)) < 1 + keep
      ensures !waited ==> now == old(now)
    {
      waited := false;
      ghost var start := now;
      var target := Until(1 + keep);
      var free := Free();
      while free < 1 + keep
        invariant Valid() && now >= start && free == FreeAt(log, now) >= 0 && IsCut(log, now, dropped)
        invariant free == ATTEST_CALLS_PER_MINUTE - |attestations| && IsLeastWait(log, 1 + keep, start, target)
        invariant waited <==> FreeAt(log, start) < 1 + keep && now != start
        invariant !waited ==> now == start
        decreases start + target - now
      {
        WaitGoesOn(log, 1 + keep, start, target, now);
        FreeGrows(log, start, now);
        free := Nap();
        waited := true;
      }
    }

    method Nap() returns (free: int)
      requires Valid() && IsCut(log, now, dropped) && attestations != []
      modifies this`attestations, this`dropped, this`now
      ensures Valid() && now > old(now) && free == FreeAt(log, now) >= 0 && IsCut(log, now, dropped)
      ensures free == ATTEST_CALLS_PER_MINUTE - |attestations|
    {
      var late: nat :| late >= 0;
      WaitSlice(late);
      free := Free();
    }

    /** One call, now. */
    method Push()
      requires Valid() && FreeAt(log, now) >= 1 && FreeAt(log, now) > owed
      modifies this`attestations, this`log
      ensures Valid() && log == old(log) + [now] && FreeAt(log, now) == FreeAt(old(log), now) - 1
    {
      PushKeeps(log, dropped, now);
      attestations, log := attestations + [now], log + [now];
    }

    /** P4: the view of the tip is asked for only when a classification could still follow it at once. */
    method AttestTip() returns (waited: bool)
      requires Valid()
      modifies this
      ensures Valid() && owed == old(owed) && now >= old(now) && log == old(log) + [now]
      ensures FreeAt(log, now) >= CLASSIFY_CALLS
    {
      waited := Room(CLASSIFY_CALLS);
      Push();
    }

    /** One call of a classification, for which nothing is kept back. The first one made for the newest
        payment finds its calls free. */
    method AttestExact() returns (waited: bool)
      requires Valid()
      modifies this
      ensures Valid() && now >= old(now) && log == old(log) + [now]
      ensures owed == if old(owed) > 0 then old(owed) - 1 else 0
      ensures old(owed) > 0 ==> !waited && now == old(now)
    {
      waited := Room(0);
      owed := if owed > 0 then owed - 1 else 0;
      Push();
    }

    /** P8: a payment is signed only while its classification's calls are free. */
    method MayReserve() returns (may: bool)
      requires Valid()
      modifies this`attestations, this`dropped, this`owed
      ensures Valid() && (may <==> FreeAt(log, now) >= CLASSIFY_CALLS)
      ensures owed == if may then CLASSIFY_CALLS else old(owed)
    {
      var free := Free();
      may := free >= CLASSIFY_CALLS;
      if may {
        owed := CLASSIFY_CALLS;
      }
    }

    /** The payment's first classification is over. */
    method Classified()
      requires Valid()
      modifies this`owed
      ensures Valid() && owed == 0
    {
      owed := 0;
    }
  }
}
