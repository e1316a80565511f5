/** Which resolved addresses OIDC discovery may dial: longest-prefix match over a table
    of special-purpose allocations, the NAT64 exception and the multicast fallback. */
module AddressPolicy {
  import opened Strings

  datatype Family = IPv4 | IPv6

  function Width(f: Family): nat {
    match f case IPv4 => 32 case IPv6 => 128
  }

  function Pow2(n: nat): (r: nat)
    ensures r > 0
  {
    if n >= 16 then 0x1_0000 * Pow2(n - 16) else if n > 0 then 2 * Pow2(n - 1) else 1
  }

  /** An address as the code sees it after `To4`: its family and its value. */
  datatype Address = Address(family: Family, value: nat)

  /** A registry block as written: the first `ones` bits of `base` and the registry's
      "Globally Reachable" value. */
  datatype Block = Block(family: Family, base: nat, ones: nat, reachable: bool)

  /** How many addresses share the block's leading bits. */
  function Size(b: Block): (size: nat)
    requires b.ones <= Width(b.family)
    ensures size > 0
  {
    Pow2(Width(b.family) - b.ones)
  }

  /** What `net.ParseCIDR` returns: no bit of the base is set beyond the prefix. */
  predicate ValidBlock(b: Block) {
    b.ones <= Width(b.family) && b.base % Size(b) == 0
  }

  type Record = b: Block | ValidBlock(b) witness Block(IPv4, 0, 0, false)

  /** `r.network.Contains(ip)`: the masked bits agree. */
  predicate Contains(r: Record, value: nat) {
    value / Size(r) == r.base / Size(r)
  }

  /** The record takes part in the match: same family, and it contains the address. */
  predicate Matches(r: Record, a: Address) {
    r.family == a.family && Contains(r, a.value)
  }

  // ----- the loop and its specification -----

  /** `r` is a longest matching record of the table. */
  ghost predicate Longest(table: seq<Record>, a: Address, r: Record) {
    r in table && Matches(r, a) && forall q | q in table && Matches(q, a) :: q.ones <= r.ones
  }

  /** The flag of the first record of maximal length, if any matches. */
  function Lookup(table: seq<Record>, a: Address): (flag: Option<bool>)
    ensures flag.None? <==> forall q | q in table :: !Matches(q, a)
    ensures flag.Some? ==> exists r :: Longest(table, a, r) && flag.value == r.reachable
  {
    match Best(table, a)
    case None => None
    case Some(r) => Some(r.reachable)
  }

  function Best(table: seq<Record>, a: Address): (best: Option<Record>)
    ensures best.None? <==> forall q | q in table :: !Matches(q, a)
    ensures best.Some? ==> Longest(table, a, best.value)
  {
    if |table| == 0 then None else
    var init, last := table[..|table| - 1], table[|table| - 1];
    assert table == init + [last];
    var best := Best(init, a);
    if Matches(last, a) && (best.None? || last.ones > best.value.ones) then Some(last) else best
  }

  /** `specialPurposeGloballyReachable` over any table. */
  method SpecialPurposeGloballyReachable(table: seq<Record>, a: Address)
      returns (globallyReachable: bool, found: bool)
    ensures Lookup(table, a) == if found then Some(globallyReachable) else None
  {
    globallyReachable, found := false, false;
    var mostSpecificBits: int := -1;
    for i := 0 to |table|
      invariant Best(table[..i], a).None? ==> !found && mostSpecificBits == -1
      invariant Best(table[..i], a).Some? ==>
          found && mostSpecificBits == Best(table[..i], a).value.ones
          && globallyReachable == Best(table[..i], a).value.reachable
    {
      var r := table[i];
      assert table[..i + 1][..i] == table[..i] && table[..i + 1][i] == r;
      if (a.family == IPv4) != (r.family == IPv4) {
        continue;
      }
      if !Contains(r, a.value) {
        continue;
      }
      if r.ones <= mostSpecificBits {
        continue;
      }
      mostSpecificBits := r.ones;
      globallyReachable := r.reachable;
      found := true;
    }
    assert table[..|table|] == table;
  }

  // ----- prefixes of one address are nested -----

  lemma {:induction false} Pow2Next(n: nat)
    ensures Pow2(n + 1) == 2 * Pow2(n)
  {
    if n >= 16 {
      Pow2Next(n - 16);
    } else if n == 15 {
      assert Pow2(16) == 0x1_0000 && Pow2(15) == 0x8000;
    }
  }

  lemma DoubleProduct(x: nat, y: nat)
    ensures 2 * (x * y) == (2 * x) * y
  {
  }

  lemma {:induction false} Pow2Add(m: nat, n: nat)
    ensures Pow2(m + n) == Pow2(m) * Pow2(n)
  {
    if m == 0 {
    } else {
      var k := m - 1;
      Pow2Add(k, n);
      assert k + n + 1 == m + n;
      assert Pow2(m + n) == 2 * Pow2(k + n) by { Pow2Next(k + n); }
      assert Pow2(m) == 2 * Pow2(k) by { Pow2Next(k); }
      DoubleProduct(Pow2(k), Pow2(n));
    }
  }

  lemma DivDiv(x: nat, m: nat, n: nat)
    requires m > 0 && n > 0
    ensures m * n > 0 && x / (m * n) == x / m / n
  {
    var y, s := x / m, x % m;
    var q, r := y / n, y % n;
    DivModIs(x, m);
    DivModIs(y, n);
    Regroup(q, n, r, m, s);
    Remainder(r, n, s, m);
    DivUnique(x, m * n, q, r * m + s);
  }

  lemma DivModIs(x: nat, d: nat)
    requires d > 0
    ensures x == x / d * d + x % d && x % d < d
  {
  }

  lemma Regroup(q: nat, n: nat, r: nat, m: nat, s: nat)
    ensures (q * n + r) * m + s == q * (m * n) + (r * m + s)
  {
  }

  lemma Remainder(r: nat, n: nat, s: nat, m: nat)
    requires r < n && s < m
    ensures m * n > 0 && r * m + s < m * n
  {
    assert (n - 1 - r) * m >= 0;
    assert (n - 1 - r) * m == m * n - m - r * m;
  }

  lemma DivUnique(x: int, d: int, q: int, r: int)
    requires d > 0 && x == q * d + r && 0 <= r < d
    ensures x / d == q
  {
    var k, m := x / d - q, x % d;
    assert x == x / d * d + m;
    assert k * d == r - m;
    assert k >= 1 ==> k * d >= d;
    assert k <= -1 ==> k * d <= -d;
  }

  /** The block an aligned base names is an interval. */
  lemma DivInterval(v: nat, base: nat, size: nat)
    requires size > 0 && base % size == 0
    ensures v / size == base / size <==> base <= v < base + size
  {
    assert base == base / size * size;
    if base <= v < base + size {
      DivUnique(v, size, base / size, v - base);
    }
    assert v == v / size * size + v % size;
  }

  /** A shorter prefix is determined by a longer one. */
  lemma Shorten(x: nat, y: nat, small: nat, big: nat)
    requires small <= big && x / Pow2(small) == y / Pow2(small)
    ensures x / Pow2(big) == y / Pow2(big)
  {
    Pow2Add(small, big - small);
    DivDiv(x, Pow2(small), Pow2(big - small));
    DivDiv(y, Pow2(small), Pow2(big - small));
  }

  lemma MatchesInterval(r: Record, a: Address)
    ensures Matches(r, a) <==> r.family == a.family && r.base <= a.value < r.base + Size(r)
  {
    DivInterval(a.value, r.base, Size(r));
  }

  /** Every address in `r` is in `p`: `p` is a shorter or equal prefix of `r`. */
  predicate Encloses(p: Record, r: Record) {
    p.family == r.family && p.ones <= r.ones && Contains(p, r.base)
  }

  /** The laminar property: of two records containing one address, the longer lies inside
      the shorter. */
  lemma MatchesNest(p: Record, r: Record, a: Address)
    requires Matches(p, a) && Matches(r, a) && p.ones <= r.ones
    ensures Encloses(p, r)
  {
    Shorten(a.value, r.base, Width(r.family) - r.ones, Width(r.family) - p.ones);
  }

  lemma EnclosesMatches(p: Record, r: Record, a: Address)
    requires Encloses(p, r) && Matches(r, a)
    ensures Matches(p, a)
  {
    Shorten(a.value, r.base, Width(r.family) - r.ones, Width(r.family) - p.ones);
  }

  /** No two records name the same block with opposite flags. */
  ghost predicate Consistent(table: seq<Record>) {
    forall p, q | p in table && q in table && Encloses(p, q) && p.ones == q.ones :: p.reachable == q.reachable
  }

  /** In a consistent table the answer is the flag of any longest match. */
  lemma LookupIsLongest(table: seq<Record>, a: Address, r: Record)
    requires Consistent(table) && Longest(table, a, r)
    ensures Lookup(table, a) == Some(r.reachable)
  {
    var best := Best(table, a).value;
    MatchesNest(best, r, a);
  }

  /** All longest matches of `a` carry the same flag. */
  ghost predicate Unambiguous(table: seq<Record>, a: Address) {
    forall p, q | Longest(table, a, p) && Longest(table, a, q) :: p.reachable == q.reachable
  }

  lemma ConsistentIsUnambiguous(table: seq<Record>, a: Address)
    requires Consistent(table)
    ensures Unambiguous(table, a)
  {
    forall p, q | Longest(table, a, p) && Longest(table, a, q) ensures p.reachable == q.reachable {
      MatchesNest(p, q, a);
    }
  }

  lemma SameMembersSameLongest(t: seq<Record>, u: seq<Record>, a: Address, r: Record)
    requires forall x :: x in t <==> x in u
    ensures Longest(t, a, r) <==> Longest(u, a, r)
  {
  }

  lemma {:induction false} FrontWins(p: Record, rest: seq<Record>, a: Address)
    requires Longest([p] + rest, a, p)
    ensures Best([p] + rest, a) == Some(p)
  {
    var t := [p] + rest;
    if rest == [] {
      assert t[..0] == [] && t[0] == p && Best(t[..0], a) == None;
    } else {
      var n := |rest| - 1;
      assert t[..|t| - 1] == [p] + rest[..n] && t[|t| - 1] == rest[n];
      assert forall x | x in [p] + rest[..n] :: x in t;
      FrontWins(p, rest[..n], a);
      assert rest[n] in t;
    }
  }

  lemma {:induction false} MoveToFront(t: seq<Record>, p: Record) returns (u: seq<Record>)
    requires p in t
    ensures u != [] && u[0] == p && multiset(u) == multiset(t)
  {
    var k :| 0 <= k < |t| && t[k] == p;
    u := [p] + (t[..k] + t[k + 1..]);
    assert t == t[..k] + [t[k]] + t[k + 1..];
  }

  lemma PermutationMembers(t: seq<Record>, u: seq<Record>)
    requires multiset(t) == multiset(u)
    ensures forall x :: x in t <==> x in u
  {
    forall x ensures x in t <==> x in u {
      assert x in t <==> x in multiset(t);
      assert x in u <==> x in multiset(u);
    }
  }

  lemma PermutedAlike(table: seq<Record>, t: seq<Record>, a: Address)
    requires Unambiguous(table, a) && multiset(t) == multiset(table)
    ensures Lookup(t, a) == Lookup(table, a)
  {
    PermutationMembers(t, table);
    if Best(table, a).Some? {
      SameMembersSameLongest(t, table, a, Best(table, a).value);
      SameMembersSameLongest(t, table, a, Best(t, a).value);
    }
  }

  /** A longest match can be brought to the front, where it decides. */
  lemma LongestToFront(table: seq<Record>, p: Record, a: Address) returns (t: seq<Record>)
    requires Longest(table, a, p)
    ensures multiset(t) == multiset(table) && Lookup(t, a) == Some(p.reachable)
  {
    t := MoveToFront(table, p);
    PermutationMembers(t, table);
    assert t == [p] + t[1..];
    SameMembersSameLongest(t, table, a, p);
    FrontWins(p, t[1..], a);
  }

  /** Every permutation of the table gives the same answer for `a` exactly when all
      longest matches of `a` carry the same flag; a consistent table is so for all `a`. */
  lemma OrderIndependent(table: seq<Record>, a: Address)
    ensures Unambiguous(table, a) <==>
            forall t: seq<Record> | multiset(t) == multiset(table) :: Lookup(t, a) == Lookup(table, a)
    ensures Consistent(table) ==> Unambiguous(table, a)
  {
    if Consistent(table) {
      ConsistentIsUnambiguous(table, a);
    }
    if Unambiguous(table, a) {
      forall t: seq<Record> | multiset(t) == multiset(table) ensures Lookup(t, a) == Lookup(table, a) {
        PermutedAlike(table, t, a);
      }
    } else {
      var p, q :| Longest(table, a, p) && Longest(table, a, q) && p.reachable != q.reachable;
      var t := LongestToFront(table, p, a);
      var u := LongestToFront(table, q, a);
      assert Lookup(t, a) != Lookup(u, a);
    }
  }

  /** No unreachable record lies inside a reachable one. */
  ghost predicate ExceptionsAreLeaves(table: seq<Record>) {
    forall p, q | p in table && q in table && p.reachable && !q.reachable :: !Encloses(p, q)
  }

  ghost predicate Covered(table: seq<Record>, a: Address, reachable: bool) {
    exists r | r in table :: r.reachable == reachable && Matches(r, a)
  }

  /** In such a table longest-prefix match is plain membership: a reachable record wins
      over every unreachable one that contains the address. */
  lemma LookupByMembership(table: seq<Record>, a: Address)
    requires ExceptionsAreLeaves(table)
    ensures Lookup(table, a) == if Covered(table, a, true) then Some(true)
                                else if Covered(table, a, false) then Some(false) else None
  {
    if Covered(table, a, true) {
      var p :| p in table && p.reachable && Matches(p, a);
      var best := Best(table, a).value;
      MatchesNest(p, best, a);
    }
  }

  /** Nor does the order of such a table matter. */
  lemma LeavesOrderIndependent(table: seq<Record>, t: seq<Record>, a: Address)
    requires ExceptionsAreLeaves(table) && multiset(t) == multiset(table)
    ensures Lookup(t, a) == Lookup(table, a)
  {
    forall p, q | Longest(table, a, p) && Longest(table, a, q) ensures p.reachable == q.reachable {
      MatchesNest(p, q, a);
      MatchesNest(q, p, a);
    }
    OrderIndependent(table, a);
  }

  lemma LeavesConsistent(table: seq<Record>)
    requires ExceptionsAreLeaves(table)
    ensures Consistent(table)
  {
    forall p, q | p in table && q in table && Encloses(p, q) && p.ones == q.ones ensures p.reachable == q.reachable {
      assert Encloses(q, p);
    }
  }

  // ----- editing the table -----

  function Without(table: seq<Record>, i: nat): seq<Record>
    requires i < |table|
  {
    table[..i] + table[i + 1..]
  }

  function With(table: seq<Record>, i: nat, r: Record): seq<Record>
    requires i <= |table|
  {
    table[..i] + [r] + table[i..]
  }

  /** Of the best matches of two halves of a table, that of the whole: the first unless the second
      is longer. */
  function Better(x: Option<Record>, y: Option<Record>): Option<Record> {
    if y.Some? && (x.None? || y.value.ones > x.value.ones) then y else x
  }

  lemma {:induction false} BestAppend(s: seq<Record>, t: seq<Record>, a: Address)
    ensures Best(s + t, a) == Better(Best(s, a), Best(t, a))
  {
    if t == [] {
      assert s + t == s;
    } else {
      var init, last := t[..|t| - 1], t[|t| - 1];
      assert (s + t)[..|s + t| - 1] == s + init && (s + t)[|s + t| - 1] == last;
      BestAppend(s, init, a);
    }
  }

  lemma BestOne(r: Record, a: Address)
    ensures Best([r], a) == if Matches(r, a) then Some(r) else None
  {
    assert [r][..0] == [];
  }

  /** Inserted at `i`, record `r` decides address `a`: it matches, and beats what stands before it
      and ties or beats what stands after it. */
  ghost predicate Decides(before: seq<Record>, r: Record, after: seq<Record>, a: Address) {
    && Matches(r, a)
    && (forall q | q in before && Matches(q, a) :: q.ones < r.ones)
    && (forall q | q in after && Matches(q, a) :: q.ones <= r.ones)
  }

  lemma DecidesIff(before: seq<Record>, r: Record, after: seq<Record>, a: Address)
    ensures Decides(before, r, after, a) ==> Best(before + [r] + after, a) == Some(r)
    ensures !Decides(before, r, after, a) ==> Best(before + [r] + after, a) == Best(before + after, a)
  {
    BestOne(r, a);
    BestAppend(before, [r], a);
    BestAppend(before + [r], after, a);
    BestAppend(before, after, a);
  }

  /** Adding a record to any table, anywhere, changes exactly the lookups of the addresses it
      decides that did not have its flag already. */
  lemma AddedRecord(table: seq<Record>, i: nat, r: Record, a: Address)
    requires i <= |table|
    ensures Lookup(With(table, i, r), a) != Lookup(table, a) <==>
            Decides(table[..i], r, table[i..], a) && Lookup(table, a) != Some(r.reachable)
  {
    assert table == table[..i] + table[i..];
    DecidesIff(table[..i], r, table[i..], a);
  }

  /** Deleting a record from any table changes exactly the lookups of the addresses it decided
      that the rest of the table answers otherwise. */
  lemma RemovedRecord(table: seq<Record>, i: nat, a: Address)
    requires i < |table|
    ensures Lookup(Without(table, i), a) != Lookup(table, a) <==>
            Decides(table[..i], table[i], table[i + 1..], a)
            && Lookup(Without(table, i), a) != Some(table[i].reachable)
  {
    assert table == table[..i] + [table[i]] + table[i + 1..];
    DecidesIff(table[..i], table[i], table[i + 1..], a);
  }

  /** `p` is a longest record of the table strictly shorter than `r` that encloses it. */
  ghost predicate NextShorter(table: seq<Record>, p: Record, r: Record) {
    p in table && p.ones < r.ones && Encloses(p, r)
    && forall q | q in table && q.ones < r.ones && Encloses(q, r) :: q.ones <= p.ones
  }

  /** So a record with the flag of the next shorter one enclosing it is redundant, in a table that
      lists no block under both flags. */
  lemma RedundantRecord(table: seq<Record>, i: nat, p: Record, a: Address)
    requires i < |table| && Consistent(table)
    requires NextShorter(table, p, table[i]) && p.reachable == table[i].reachable
    ensures Lookup(Without(table, i), a) == Lookup(table, a)
  {
    var r, smaller := table[i], Without(table, i);
    assert table == table[..i] + [r] + table[i + 1..];
    assert forall q :: q in table <==> q in smaller || q == r;
    RemovedRecord(table, i, a);
    if Decides(table[..i], r, table[i + 1..], a) {
      EnclosesMatches(p, r, a);
      var best := Best(smaller, a).value;
      MatchesNest(best, r, a);
      if best.ones < r.ones {
        assert Longest(smaller, a, p);
        LookupIsLongest(smaller, a, p);
      }
    }
  }

  /** Consistency cannot be dropped: with a block listed under both flags, deleting a redundant
      record inside it uncovers the other flag. */
  lemma RedundantNeedsConsistent() returns (table: seq<Record>, i: nat, p: Record, a: Address)
    ensures i < |table| && NextShorter(table, p, table[i]) && p.reachable == table[i].reachable
    ensures Lookup(Without(table, i), a) != Lookup(table, a)
  {
    assert Pow2(0) == 1 && Pow2(8) == 0x100 && Pow2(16) == 0x1_0000 && Pow2(24) == 0x100_0000;
    var q: Record, r: Record := Block(IPv4, 0, 8, false), Block(IPv4, 0, 16, true);
    p := Block(IPv4, 0, 8, true);
    table, i, a := [q, p, r], 2, Address(IPv4, 0);
    assert Without(table, 2) == [q, p];
    assert table[..2] == [q, p] && [q, p][..1] == [q] && [q][..0] == [];
    assert Best([q], a) == Some(q) && Best([q, p], a) == Some(q) && Best(table, a) == Some(r);
    assert NextShorter(table, p, table[2]);
  }

  /** A tie with the added record is the same block, so it has the same flag. */
  lemma TieHasItsFlag(table: seq<Record>, larger: seq<Record>, r: Record, q: Record, a: Address)
    requires Consistent(larger) && r in larger && forall x | x in table :: x in larger
    requires Matches(r, a) && q in table && Matches(q, a) && q.ones == r.ones
    requires forall x | x in table && Matches(x, a) :: x.ones <= r.ones
    ensures Lookup(table, a) == Some(r.reachable)
  {
    var best := Best(table, a).value;
    MatchesNest(best, r, a);
  }

  /** Where no block is listed under both flags, the place of an added record does not matter. */
  lemma AddedAnywhere(table: seq<Record>, i: nat, r: Record, a: Address)
    requires i <= |table| && Consistent(With(table, i, r))
    ensures Lookup(With(table, i, r), a) != Lookup(table, a) <==>
            Matches(r, a)
            && (forall q | q in table && Matches(q, a) :: q.ones < r.ones)
            && Lookup(table, a) != Some(r.reachable)
  {
    AddedRecord(table, i, r, a);
    InBoth(table, i, r);
    if Decides(table[..i], r, table[i..], a) && exists q :: q in table && Matches(q, a) && q.ones >= r.ones {
      var q :| q in table && Matches(q, a) && q.ones >= r.ones;
      TieHasItsFlag(table, With(table, i, r), r, q, a);
    }
  }

  lemma InBoth(table: seq<Record>, i: nat, r: Record)
    requires i <= |table|
    ensures forall q :: q in table <==> q in table[..i] || q in table[i..]
    ensures forall q :: q in With(table, i, r) <==> q in table || q == r
  {
    assert table == table[..i] + table[i..];
  }
}
