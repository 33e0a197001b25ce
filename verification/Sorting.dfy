/** Stable insertion sort by a numeric key, and what it keeps. */
module Sorting {

  ghost predicate DistinctBy<T, K>(f: T -> K, s: seq<T>) {
    forall i, j :: 0 <= i < j < |s| ==> f(s[i]) != f(s[j])
  }

  /** No element of `s` has `x`'s key. */
  ghost predicate NewBy<T, K>(f: T -> K, s: seq<T>, x: T) {
    forall i :: 0 <= i < |s| ==> f(s[i]) != f(x)
  }

  function Insert<T>(x: T, s: seq<T>, key: T -> nat): seq<T> {
    if s == [] || key(s[|s| - 1]) <= key(x) then s + [x]
    else Insert(x, s[..|s| - 1], key) + [s[|s| - 1]]
  }

  function Sort<T>(s: seq<T>, key: T -> nat): seq<T> {
    if s == [] then [] else Insert(s[|s| - 1], Sort(s[..|s| - 1], key), key)
  }

  ghost predicate Ascending<T>(s: seq<T>, key: T -> nat) {
    forall i, j :: 0 <= i < j < |s| ==> key(s[i]) < key(s[j])
  }

  lemma {:induction false} InsertHas<T>(x: T, s: seq<T>, key: T -> nat)
    ensures multiset(Insert(x, s, key)) == multiset(s) + multiset{x}
  {
    if s != [] {
      var k := |s| - 1;
      InsertHas(x, s[..k], key);
      assert s == s[..k] + [s[k]];
    }
  }

  lemma {:induction false} SortHas<T>(s: seq<T>, key: T -> nat)
    ensures multiset(Sort(s, key)) == multiset(s)
    ensures |Sort(s, key)| == |s|
    ensures forall y :: y in Sort(s, key) <==> y in s
  {
    if s != [] {
      var k := |s| - 1;
      SortHas(s[..k], key);
      InsertHas(s[k], Sort(s[..k], key), key);
      assert s == s[..k] + [s[k]];
    }
    assert |multiset(Sort(s, key))| == |Sort(s, key)|;
    forall y ensures y in Sort(s, key) <==> y in s {
      assert y in Sort(s, key) <==> y in multiset(Sort(s, key));
      assert y in s <==> y in multiset(s);
    }
  }

  lemma NewByElements<T, K>(f: T -> K, s: seq<T>, x: T)
    ensures NewBy(f, s, x) <==> forall y <- s :: f(y) != f(x)
  {
  }

  lemma NewByPermutation<T, K>(f: T -> K, s: seq<T>, t: seq<T>, x: T)
    requires multiset(s) == multiset(t)
    ensures NewBy(f, s, x) <==> NewBy(f, t, x)
  {
    forall i | 0 <= i < |s| ensures s[i] in t {
      assert s[i] in multiset(s);
    }
    forall i | 0 <= i < |t| ensures t[i] in s {
      assert t[i] in multiset(t);
    }
  }

  lemma DistinctWithLast<T, K>(f: T -> K, s: seq<T>, x: T)
    ensures DistinctBy(f, s + [x]) <==> DistinctBy(f, s) && NewBy(f, s, x)
  {
    var t := s + [x];
    assert t[|s|] == x && forall i :: 0 <= i < |s| ==> t[i] == s[i];
    if DistinctBy(f, t) {
      forall i | 0 <= i < |s| ensures f(s[i]) != f(x) {
        assert f(t[i]) != f(t[|s|]);
      }
    }
  }

  lemma NewWithLast<T, K>(f: T -> K, s: seq<T>, x: T, z: T)
    ensures NewBy(f, s + [x], z) <==> NewBy(f, s, z) && f(x) != f(z)
  {
    var t := s + [x];
    assert t[|s|] == x && forall i :: 0 <= i < |s| ==> t[i] == s[i];
  }

  lemma DistinctWithFirst<T, K>(f: T -> K, x: T, s: seq<T>)
    ensures DistinctBy(f, [x] + s) <==> DistinctBy(f, s) && NewBy(f, s, x)
  {
    var u := [x] + s;
    assert forall i :: 0 <= i < |s| ==> u[i + 1] == s[i];
    if DistinctBy(f, u) {
      forall i | 0 <= i < |s| ensures f(s[i]) != f(x) {
        assert f(u[0]) != f(u[i + 1]);
      }
      forall i, j | 0 <= i < j < |s| ensures f(s[i]) != f(s[j]) {
        assert f(u[i + 1]) != f(u[j + 1]);
      }
    }
  }

  lemma DistinctPastLast<T, K>(f: T -> K, x: T, front: seq<T>, last: T, r: seq<T>)
    requires multiset(r) == multiset(front + [x])
    requires DistinctBy(f, r) <==> DistinctBy(f, front) && NewBy(f, front, x)
    ensures DistinctBy(f, r + [last]) <==> DistinctBy(f, front + [last]) && NewBy(f, front + [last], x)
  {
    NewByPermutation(f, r, front + [x], last);
    NewWithLast(f, front, x, last);
    NewWithLast(f, front, last, x);
    DistinctWithLast(f, r, last);
    DistinctWithLast(f, front, last);
  }

  lemma {:induction false} InsertDistinct<T, K>(f: T -> K, x: T, s: seq<T>, key: T -> nat)
    ensures DistinctBy(f, Insert(x, s, key)) <==> DistinctBy(f, s) && NewBy(f, s, x)
  {
    if s == [] || key(s[|s| - 1]) <= key(x) {
      DistinctWithLast(f, s, x);
    } else {
      var k := |s| - 1;
      InsertDistinct(f, x, s[..k], key);
      InsertHas(x, s[..k], key);
      DistinctPastLast(f, x, s[..k], s[k], Insert(x, s[..k], key));
      assert s == s[..k] + [s[k]];
    }
  }

  /** Sorting neither makes nor removes duplicates of any kind. */
  lemma {:induction false} SortDistinct<T, K>(f: T -> K, s: seq<T>, key: T -> nat)
    ensures DistinctBy(f, Sort(s, key)) <==> DistinctBy(f, s)
  {
    if s != [] {
      var k := |s| - 1;
      SortDistinct(f, s[..k], key);
      SortHas(s[..k], key);
      NewByPermutation(f, Sort(s[..k], key), s[..k], s[k]);
      InsertDistinct(f, s[k], Sort(s[..k], key), key);
      assert s == s[..k] + [s[k]];
      DistinctWithLast(f, s[..k], s[k]);
    }
  }

  lemma BelowAll<T>(s: seq<T>, t: seq<T>, key: T -> nat, bound: nat)
    requires multiset(s) == multiset(t) && forall i :: 0 <= i < |t| ==> key(t[i]) < bound
    ensures forall i :: 0 <= i < |s| ==> key(s[i]) < bound
  {
    forall i | 0 <= i < |s| ensures s[i] in t {
      assert s[i] in multiset(s);
    }
  }

  lemma {:induction false} InsertAscends<T>(x: T, s: seq<T>, key: T -> nat)
    requires Ascending(s, key) && NewBy(key, s, x)
    ensures Ascending(Insert(x, s, key), key)
  {
    if s != [] && key(s[|s| - 1]) > key(x) {
      var k := |s| - 1;
      InsertAscends(x, s[..k], key);
      InsertHas(x, s[..k], key);
      BelowAll(Insert(x, s[..k], key), s[..k] + [x], key, key(s[k]));
    }
  }

  lemma {:induction false} SortAscends<T>(s: seq<T>, key: T -> nat)
    requires DistinctBy(key, s)
    ensures Ascending(Sort(s, key), key)
  {
    if s != [] {
      var k := |s| - 1;
      SortAscends(s[..k], key);
      SortHas(s[..k], key);
      NewByPermutation(key, Sort(s[..k], key), s[..k], s[k]);
      InsertAscends(s[k], Sort(s[..k], key), key);
    }
  }

  /** An ascending sequence is determined by its elements. */
  lemma {:induction false} AscendingIsUnique<T>(s: seq<T>, t: seq<T>, key: T -> nat)
    requires Ascending(s, key) && Ascending(t, key) && forall y :: y in s <==> y in t
    ensures s == t
  {
    assert (s != [] ==> s[0] in t) && (t != [] ==> t[0] in s);
    if s != [] {
      var k, l := |s| - 1, |t| - 1;
      assert s[k] in t && t[l] in s;
      assert s[k] == t[l];
      assert s == s[..k] + [s[k]] && t == t[..l] + [t[l]];
      forall y ensures y in s[..k] <==> y in t[..l] {
        assert y in s[..k] ==> y in s && y != s[k];
        assert y in t[..l] ==> y in t && y != t[l];
      }
      AscendingIsUnique(s[..k], t[..l], key);
    }
  }

  /** Sorting an ascending sequence changes nothing. */
  lemma SortedAlready<T>(s: seq<T>, key: T -> nat)
    requires Ascending(s, key)
    ensures Sort(s, key) == s
  {
    SortAscends(s, key);
    SortHas(s, key);
    AscendingIsUnique(Sort(s, key), s, key);
  }
}
