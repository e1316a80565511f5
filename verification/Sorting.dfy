/** `slices.SortFunc`, `slices.Sort` and `slices.Compact`, keyed by a string. */
module Sorting {
  import opened Strings

  ghost predicate Sorted<T(!new)>(s: seq<T>, key: T -> string) {
    forall i, j | 0 <= i < j < |s| :: Leq(key(s[i]), key(s[j]))
  }

  ghost predicate DistinctKeys<T(!new)>(s: seq<T>, key: T -> string) {
    forall i, j | 0 <= i < j < |s| :: key(s[i]) != key(s[j])
  }

  /** `r` is one of the results `slices.SortFunc` may leave for `s`: the sort is not
      stable, so records with equal keys may come out in any order. */
  ghost predicate SortResult<T(!new)>(r: seq<T>, s: seq<T>, key: T -> string) {
    Sorted(r, key) && multiset(r) == multiset(s)
  }

  function Insert<T>(x: T, s: seq<T>, key: T -> string): (r: seq<T>)
    ensures multiset(r) == multiset(s) + multiset{x}
  {
    if |s| == 0 then [x]
    else if Leq(key(x), key(s[0])) then [x] + s
    else
      assert s == [s[0]] + s[1..];
      [s[0]] + Insert(x, s[1..], key)
  }

  /** One sorted arrangement; the only one when the keys are distinct. */
  function SortBy<T>(s: seq<T>, key: T -> string): (r: seq<T>)
    ensures multiset(r) == multiset(s) && |r| == |s|
  {
    if |s| == 0 then s
    else
      assert s == [s[0]] + s[1..];
      var r := Insert(s[0], SortBy(s[1..], key), key);
      assert |multiset(r)| == |r| && |multiset(s)| == |s|;
      r
  }

  lemma {:induction false} InsertSorted<T(!new)>(x: T, s: seq<T>, key: T -> string)
    requires Sorted(s, key)
    ensures Sorted(Insert(x, s, key), key)
  {
    if |s| == 0 {
    } else if Leq(key(x), key(s[0])) {
      forall j | 0 <= j < |s| ensures Leq(key(x), key(s[j])) {
        if j > 0 { LeqTransitive(key(x), key(s[0]), key(s[j])); }
      }
    } else {
      LeqTotal(key(x), key(s[0]));
      InsertSorted(x, s[1..], key);
      var t := Insert(x, s[1..], key);
      forall j | 0 <= j < |t| ensures Leq(key(s[0]), key(t[j])) {
        assert t[j] in multiset(s[1..]) + multiset{x};
      }
    }
  }

  lemma {:induction false} SortBySorts<T(!new)>(s: seq<T>, key: T -> string)
    ensures SortResult(SortBy(s, key), s, key)
  {
    if |s| == 0 {
    } else {
      SortBySorts(s[1..], key);
      InsertSorted(s[0], SortBy(s[1..], key), key);
    }
  }

  lemma {:induction false} TwoPositions<T(!new)>(a: seq<T>, x: T) returns (p: nat, q: nat)
    requires multiset(a)[x] >= 2
    ensures p < q < |a| && a[p] == a[q] == x
  {
    assert a == [a[0]] + a[1..];
    if a[0] == x {
      assert x in multiset(a[1..]);
      var k :| 0 <= k < |a| - 1 && a[1..][k] == x;
      p, q := 0, k + 1;
    } else {
      p, q := TwoPositions(a[1..], x);
      p, q := p + 1, q + 1;
    }
  }

  lemma RepeatedKeyPermutes<T(!new)>(a: seq<T>, b: seq<T>, key: T -> string, i: nat, j: nat)
    requires multiset(a) == multiset(b)
    requires i < j < |b| && key(b[i]) == key(b[j])
    ensures !DistinctKeys(a, key)
  {
    if b[i] == b[j] {
      assert b == b[..j] + [b[j]] + b[j + 1..] && b[..j][i] == b[j];
      var p, q := TwoPositions(a, b[i]);
    } else {
      assert b[i] in multiset(a) && b[j] in multiset(a);
      var p :| 0 <= p < |a| && a[p] == b[i];
      var q :| 0 <= q < |a| && a[q] == b[j];
      assert p < q || q < p;
    }
  }

  lemma DistinctKeysPermute<T(!new)>(a: seq<T>, b: seq<T>, key: T -> string)
    requires multiset(a) == multiset(b) && DistinctKeys(a, key)
    ensures DistinctKeys(b, key)
  {
    forall i, j | 0 <= i < j < |b| ensures key(b[i]) != key(b[j]) {
      if key(b[i]) == key(b[j]) {
        RepeatedKeyPermutes(a, b, key, i, j);
      }
    }
  }

  lemma MultisetHead<T>(a: seq<T>)
    requires a != []
    ensures multiset(a) == multiset{a[0]} + multiset(a[1..])
  {
    assert a == [a[0]] + a[1..];
  }

  lemma MultisetRemove<T>(a: seq<T>, q: nat)
    requires q < |a|
    ensures multiset(a) == multiset{a[q]} + multiset(a[..q] + a[q + 1..])
  {
    assert a == a[..q] + [a[q]] + a[q + 1..];
  }

  lemma Cancel<T>(x: T, a: multiset<T>, b: multiset<T>)
    requires multiset{x} + a == multiset{x} + b
    ensures a == b
  {
    assert a == (multiset{x} + a) - multiset{x};
    assert b == (multiset{x} + b) - multiset{x};
  }

  /** Where the head of `a` went in the permutation `b`, and that the rests still match. */
  lemma MatchHead<T>(a: seq<T>, b: seq<T>) returns (q: nat)
    requires a != [] && multiset(a) == multiset(b)
    ensures q < |b| && b[q] == a[0]
    ensures multiset(a[1..]) == multiset(b[..q] + b[q + 1..])
  {
    assert a[0] in multiset(b);
    q :| q < |b| && b[q] == a[0];
    MultisetHead(a);
    MultisetRemove(b, q);
    Cancel(a[0], multiset(a[1..]), multiset(b[..q] + b[q + 1..]));
  }

  lemma SameSize<T>(a: seq<T>, b: seq<T>)
    requires multiset(a) == multiset(b)
    ensures |a| == |b|
  {
    assert |multiset(a)| == |a| && |multiset(b)| == |b|;
  }

  lemma HeadIsLeast<T(!new)>(a: seq<T>, b: seq<T>, key: T -> string)
    requires Sorted(a, key) && multiset(a) == multiset(b) && a != [] && b != []
    ensures Leq(key(a[0]), key(b[0]))
  {
    assert b[0] in multiset(a);
    var q :| 0 <= q < |a| && a[q] == b[0];
    LeqReflexive(key(a[0]));
  }

  /** Elements that agree on the key agree. */
  ghost predicate KeyDetermines<T(!new)>(s: seq<T>, key: T -> string) {
    forall x, y | x in s && y in s && key(x) == key(y) :: x == y
  }

  lemma SameKeySameElement<T(!new)>(a: seq<T>, x: T, key: T -> string)
    requires KeyDetermines(a, key) && a != [] && x in multiset(a) && key(a[0]) == key(x)
    ensures a[0] == x
  {
  }

  /** When keys determine the elements the sort has one result, whatever order it starts from. */
  lemma {:induction false} SortResultUnique<T(!new)>(a: seq<T>, b: seq<T>, key: T -> string)
    requires Sorted(a, key) && Sorted(b, key) && multiset(a) == multiset(b)
    requires KeyDetermines(a, key)
    ensures a == b
  {
    SameSize(a, b);
    if |a| == 0 {
    } else {
      HeadIsLeast(a, b, key);
      HeadIsLeast(b, a, key);
      LeqAntisymmetric(key(a[0]), key(b[0]));
      assert b[0] in multiset(b);
      SameKeySameElement(a, b[0], key);
      MultisetHead(a);
      MultisetHead(b);
      Cancel(a[0], multiset(a[1..]), multiset(b[1..]));
      SortResultUnique(a[1..], b[1..], key);
      assert a == [a[0]] + a[1..] && b == [b[0]] + b[1..];
    }
  }

  lemma SortByPermutation<T(!new)>(a: seq<T>, b: seq<T>, key: T -> string)
    requires multiset(a) == multiset(b) && DistinctKeys(a, key)
    ensures SortBy(a, key) == SortBy(b, key)
  {
    SortBySorts(a, key);
    SortBySorts(b, key);
    DistinctKeysPermute(a, SortBy(a, key), key);
    SortResultUnique(SortBy(a, key), SortBy(b, key), key);
  }

  /** `slices.SortFunc` on a copy of `s`. Callers may rely on the result being sorted
      and a permutation of the argument, and on nothing else unless the keys differ. */
  method SortFunc<T(!new)>(s: seq<T>, key: T -> string) returns (r: seq<T>)
    ensures SortResult(r, s, key)
    ensures DistinctKeys(s, key) ==> r == SortBy(s, key) && DistinctKeys(r, key)
  {
    r := [];
    for i := 0 to |s|
      invariant SortResult(r, s[..i], key)
    {
      InsertSorted(s[i], r, key);
      r := Insert(s[i], r, key);
      assert s[..i + 1] == s[..i] + [s[i]];
    }
    assert s[..|s|] == s;
    if DistinctKeys(s, key) {
      SortBySorts(s, key);
      DistinctKeysPermute(s, r, key);
      SortResultUnique(r, SortBy(s, key), key);
    }
  }

  ghost predicate StrictlyIncreasing(s: seq<string>) {
    forall i, j | 0 <= i < j < |s| :: Leq(s[i], s[j]) && s[i] != s[j]
  }

  /** `slices.Compact`: runs of equal members shrink to one. */
  function Compact(s: seq<string>): (r: seq<string>)
    ensures forall x :: x in r <==> x in s
    ensures s != [] ==> r != [] && r[|r| - 1] == s[|s| - 1]
  {
    if |s| == 0 then []
    else
      var n := |s| - 1;
      assert s == s[..n] + [s[n]];
      var r := Compact(s[..n]);
      if r != [] && r[|r| - 1] == s[n] then r else r + [s[n]]
  }

  function Itself(): string -> string {
    (s: string) => s
  }

  function OrderedSet(s: seq<string>): seq<string> {
    Compact(SortBy(s, Itself()))
  }

  lemma {:induction false} CompactIncreases(s: seq<string>)
    requires Sorted(s, Itself())
    ensures StrictlyIncreasing(Compact(s))
  {
    if s == [] {
    } else {
      var n := |s| - 1;
      CompactIncreases(s[..n]);
      var r := Compact(s[..n]);
      if r == [] || r[|r| - 1] != s[n] {
        forall j | 0 <= j < |r| ensures Leq(r[j], s[n]) && r[j] != s[n] {
          assert r[j] in s[..n];
          if r[j] == s[n] {
            assert Leq(r[j], r[|r| - 1]) by { LeqReflexive(r[j]); }
            assert Leq(Itself()(s[n - 1]), Itself()(s[n]));
            LeqAntisymmetric(r[j], r[|r| - 1]);
          }
        }
      }
    }
  }

  /** The members in order, each once; no other list is that. */
  lemma OrderedSetIsOrdered(s: seq<string>)
    ensures StrictlyIncreasing(OrderedSet(s))
    ensures forall x :: x in OrderedSet(s) <==> x in s
  {
    var t := SortBy(s, Itself());
    SortBySorts(s, Itself());
    CompactIncreases(t);
    forall x ensures x in t <==> x in s {
      assert x in multiset(t) <==> x in multiset(s);
    }
  }

  /** Equal strings cannot be told apart, so sorting strings has one result. */
  lemma SortedStringsUnique(t: seq<string>, s: seq<string>)
    requires SortResult(t, s, Itself())
    ensures t == SortBy(s, Itself())
  {
    SortBySorts(s, Itself());
    SortResultUnique(t, SortBy(s, Itself()), Itself());
  }

  /** `slices.Sort` followed by `slices.Compact`, in place there, on a copy here. */
  method SortCompact(s: seq<string>) returns (r: seq<string>)
    ensures r == OrderedSet(s)
    ensures StrictlyIncreasing(r)
    ensures forall x :: x in r <==> x in s
  {
    var t := SortFunc(s, Itself());
    SortedStringsUnique(t, s);
    r := [];
    for i := 0 to |t|
      invariant r == Compact(t[..i])
    {
      assert t[..i + 1][..i] == t[..i];
      if r == [] || r[|r| - 1] != t[i] {
        r := r + [t[i]];
      }
    }
    assert t[..|t|] == t;
    OrderedSetIsOrdered(s);
  }

  /** A strictly increasing list is determined by its members. */
  lemma {:induction false} StrictlyIncreasingUnique(a: seq<string>, b: seq<string>)
    requires StrictlyIncreasing(a) && StrictlyIncreasing(b)
    requires forall x :: x in a <==> x in b
    ensures a == b
  {
    assert (a == [] || a[0] in a) && (b == [] || b[0] in b);
    if a == [] {
    } else {
      assert a[0] in b && b[0] in a;
      var p :| 0 <= p < |b| && b[p] == a[0];
      var q :| 0 <= q < |a| && a[q] == b[0];
      LeqAntisymmetricUnless(a, b, p, q);
      forall x ensures x in a[1..] <==> x in b[1..] {
        InTail(a, x);
        InTail(b, x);
      }
      StrictlyIncreasingUnique(a[1..], b[1..]);
      assert a == [a[0]] + a[1..] && b == [b[0]] + b[1..];
    }
  }

  lemma LeqAntisymmetricUnless(a: seq<string>, b: seq<string>, p: nat, q: nat)
    requires StrictlyIncreasing(a) && StrictlyIncreasing(b)
    requires p < |b| && q < |a| && b[p] == a[0] && a[q] == b[0]
    ensures a[0] == b[0]
  {
    if p > 0 && q > 0 {
      LeqAntisymmetric(a[0], b[0]);
    }
  }

  lemma InTail(s: seq<string>, x: string)
    requires s != [] && StrictlyIncreasing(s)
    ensures x in s[1..] <==> x in s && x != s[0]
  {
  }
}
