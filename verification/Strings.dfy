/** Go strings, the string helpers of the operator and the options they return.

    A Go string is a sequence of bytes; here one `char` stands for one byte. */
module Strings {

  datatype Option<+T> = None | Some(value: T)

  const NUL: char := '\0'

  /** The order of `strings.Compare`: bytewise lexicographic. */
  predicate Leq(a: string, b: string) {
    |a| == 0 || (|b| > 0 && (a[0] < b[0] || (a[0] == b[0] && Leq(a[1..], b[1..]))))
  }

  lemma LeqReflexive(a: string)
    ensures Leq(a, a)
  {
  }

  lemma LeqTotal(a: string, b: string)
    ensures Leq(a, b) || Leq(b, a)
  {
  }

  lemma {:induction false} LeqAntisymmetric(a: string, b: string)
    requires Leq(a, b) && Leq(b, a)
    ensures a == b
  {
    if a == [] {
    } else {
      LeqAntisymmetric(a[1..], b[1..]);
      assert a == [a[0]] + a[1..] && b == [b[0]] + b[1..];
    }
  }

  lemma {:induction false} LeqTransitive(a: string, b: string, c: string)
    requires Leq(a, b) && Leq(b, c)
    ensures Leq(a, c)
  {
    if a == [] {
    } else if a[0] == b[0] == c[0] {
      LeqTransitive(a[1..], b[1..], c[1..]);
    }
  }

  predicate NulFree(s: string) {
    NUL !in s
  }

  /** `strings.Join(parts, sep)` */
  function Join(parts: seq<string>, sep: string): string {
    if |parts| == 0 then ""
    else if |parts| == 1 then parts[0]
    else parts[0] + sep + Join(parts[1..], sep)
  }

  function JoinNul(parts: seq<string>): string {
    Join(parts, [NUL])
  }

  /** Two NUL-free strings followed by a NUL can only agree when the strings do. */
  lemma NulEndsPart(a: string, x: string, b: string, y: string)
    requires NulFree(a) && NulFree(b)
    requires a + [NUL] + x == b + [NUL] + y
    ensures a == b && x == y
  {
    var s, t := a + [NUL] + x, b + [NUL] + y;
    assert forall i | 0 <= i < |a| :: s[i] == a[i] && a[i] in a;
    assert forall i | 0 <= i < |b| :: t[i] == b[i] && b[i] in b;
    assert s[|a|] == NUL && t[|b|] == NUL;
    assert |a| == |b|;
    assert a == s[..|a|] && b == t[..|b|];
    assert x == s[|a| + 1..] && y == t[|b| + 1..];
  }

  lemma NulFreeMeetsNul(a: string, b: string, y: string)
    requires NulFree(a)
    ensures a != b + [NUL] + y
  {
  }

  /** Joining with NUL separators determines the parts, as many of them as there are,
      when no part holds a NUL. An empty list joins like the list of one empty part. */
  lemma {:induction false} JoinNulInjective(p: seq<string>, q: seq<string>)
    requires |p| > 0 && |q| > 0
    requires forall s | s in p :: NulFree(s)
    requires forall s | s in q :: NulFree(s)
    requires JoinNul(p) == JoinNul(q)
    ensures p == q
  {
    if |p| == 1 && |q| == 1 {
      assert p == [p[0]] && q == [q[0]];
    } else if |p| == 1 {
      NulFreeMeetsNul(p[0], q[0], JoinNul(q[1..]));
    } else if |q| == 1 {
      NulFreeMeetsNul(q[0], p[0], JoinNul(p[1..]));
    } else {
      NulEndsPart(p[0], JoinNul(p[1..]), q[0], JoinNul(q[1..]));
      JoinNulInjective(p[1..], q[1..]);
      assert p == [p[0]] + p[1..] && q == [q[0]] + q[1..];
    }
  }

  // ----- exactly when the join determines the parts -----

  function Nuls(s: string): nat {
    if |s| == 0 then 0 else (if s[0] == NUL then 1 else 0) + Nuls(s[1..])
  }

  lemma {:induction false} NulsAppend(a: string, b: string)
    ensures Nuls(a + b) == Nuls(a) + Nuls(b)
  {
    if a == [] {
      assert a + b == b;
    } else {
      NulsAppend(a[1..], b);
      assert (a + b)[1..] == a[1..] + b;
    }
  }

  lemma {:induction false} NulFreeIff(s: string)
    ensures NulFree(s) <==> Nuls(s) == 0
  {
    if s == [] {
    } else {
      NulFreeIff(s[1..]);
      assert s == [s[0]] + s[1..];
    }
  }

  lemma NulsBetween(a: string, b: string)
    ensures Nuls(a + [NUL] + b) == Nuls(a) + 1 + Nuls(b)
  {
    NulsAppend(a + [NUL], b);
    NulsAppend(a, [NUL]);
    assert Nuls([NUL]) == 1 + Nuls([]);
  }

  /** A join holds one NUL less than it has parts, and more only if a part holds one. */
  lemma {:induction false} NulsOfJoin(p: seq<string>)
    requires p != []
    ensures Nuls(JoinNul(p)) >= |p| - 1
    ensures Nuls(JoinNul(p)) == |p| - 1 <==> forall s | s in p :: NulFree(s)
  {
    NulFreeIff(p[0]);
    if |p| == 1 {
    } else {
      NulsOfJoin(p[1..]);
      NulsBetween(p[0], JoinNul(p[1..]));
      assert p == [p[0]] + p[1..];
    }
  }

  /** Joining two neighbours first makes no difference. */
  lemma {:induction false} JoinNeighbours(u: seq<string>, x: string, y: string, v: seq<string>)
    ensures JoinNul(u + [x, y] + v) == JoinNul(u + [x + [NUL] + y] + v)
  {
    var s, t := u + [x, y] + v, u + [x + [NUL] + y] + v;
    if u == [] {
      assert s == [x, y] + v && t == [x + [NUL] + y] + v;
      assert s[1..] == [y] + v && t[1..] == v && ([y] + v)[1..] == v;
      assert JoinNul(s) == x + [NUL] + JoinNul([y] + v);
      if v == [] {
        assert [y] + v == [y];
      } else {
        assert JoinNul([y] + v) == y + [NUL] + JoinNul(v);
        assert x + [NUL] + (y + [NUL] + JoinNul(v)) == (x + [NUL] + y) + [NUL] + JoinNul(v);
      }
    } else {
      JoinNeighbours(u[1..], x, y, v);
      assert s[1..] == u[1..] + [x, y] + v && t[1..] == u[1..] + [x + [NUL] + y] + v;
      assert s[0] == u[0] == t[0] && |s| > 1 && |t| > 1;
    }
  }

  /** The boundary between two parts can be moved over a NUL inside either. */
  lemma ShiftBoundary(u: seq<string>, a: string, b: string, c: string, v: seq<string>)
    ensures JoinNul(u + [a + [NUL] + b, c] + v) == JoinNul(u + [a, b + [NUL] + c] + v)
  {
    JoinNeighbours(u, a + [NUL] + b, c, v);
    JoinNeighbours(u, a, b + [NUL] + c, v);
    assert (a + [NUL] + b) + [NUL] + c == a + [NUL] + (b + [NUL] + c);
  }

  lemma SplitAtNul(s: string) returns (a: string, b: string)
    requires !NulFree(s)
    ensures s == a + [NUL] + b
  {
    var k :| 0 <= k < |s| && s[k] == NUL;
    a, b := s[..k], s[k + 1..];
  }

  /** A part with a NUL among several parts: another list of as many parts joins alike. */
  lemma JoinNulShifts(p: seq<string>, i: nat) returns (q: seq<string>)
    requires |p| > 1 && i < |p| && !NulFree(p[i])
    ensures |q| == |p| && q != p && JoinNul(q) == JoinNul(p)
  {
    var a, b := SplitAtNul(p[i]);
    if i + 1 < |p| {
      var u, v := p[..i], p[i + 2..];
      q := u + [a, b + [NUL] + p[i + 1]] + v;
      ShiftBoundary(u, a, b, p[i + 1], v);
      assert p == u + [a + [NUL] + b, p[i + 1]] + v;
      assert q[i] == a && |a| < |p[i]|;
    } else {
      var u, v := p[..i - 1], p[i + 1..];
      q := u + [p[i - 1] + [NUL] + a, b] + v;
      ShiftBoundary(u, p[i - 1], a, b, v);
      assert p == u + [p[i - 1], a + [NUL] + b] + v;
      assert q[i] == b && |b| < |p[i]|;
    }
  }

  lemma SameLengthInjective(p: seq<string>, q: seq<string>)
    requires p != [] && |q| == |p| && JoinNul(q) == JoinNul(p)
    requires |p| == 1 || forall s | s in p :: NulFree(s)
    ensures q == p
  {
    if |p| == 1 {
      assert p == [p[0]] && q == [q[0]];
    } else {
      NulsOfJoin(p);
      NulsOfJoin(q);
      JoinNulInjective(p, q);
    }
  }

  /** A join determines its parts among all lists of as many parts exactly when there is one part
      or no part holds a NUL. */
  lemma JoinDeterminesIff(p: seq<string>)
    ensures (|p| == 1 || forall s | s in p :: NulFree(s)) <==>
            forall q | |q| == |p| && JoinNul(q) == JoinNul(p) :: q == p
  {
    if |p| == 1 || forall s | s in p :: NulFree(s) {
      forall q | |q| == |p| && JoinNul(q) == JoinNul(p) ensures q == p {
        if p != [] {
          SameLengthInjective(p, q);
        }
      }
    } else {
      var i :| 0 <= i < |p| && !NulFree(p[i]);
      var q := JoinNulShifts(p, i);
    }
  }

  /** An instance: a NUL inside a part makes the join ambiguous. */
  lemma JoinNulAmbiguous()
    ensures JoinNul(["a\0b", "c"]) == JoinNul(["a", "b\0c"])
  {
    ShiftBoundary([], "a", "b", "c", []);
    assert "a" + [NUL] + "b" == "a\0b" && "b" + [NUL] + "c" == "b\0c";
    assert [] + ["a\0b", "c"] + [] == ["a\0b", "c"] && [] + ["a", "b\0c"] + [] == ["a", "b\0c"];
  }

  /** `strings.TrimSuffix(s, "/")`: at most one trailing slash is removed. */
  function TrimSlash(s: string): string {
    if |s| > 0 && s[|s| - 1] == '/' then s[..|s| - 1] else s
  }

  predicate HasPrefix(s: string, prefix: string) {
    |s| >= |prefix| && s[..|prefix|] == prefix
  }

  lemma HasPrefixIff(s: string, prefix: string)
    ensures HasPrefix(s, prefix) <==> exists x :: s == prefix + x
  {
    if HasPrefix(s, prefix) {
      assert s == prefix + s[|prefix|..];
    }
    if exists x :: s == prefix + x {
      var x :| s == prefix + x;
      assert (prefix + x)[..|prefix|] == prefix;
    }
  }

  /** What `TrimSlash` leaves: the text before one trailing slash, or all of a text without one. */
  lemma TrimSlashIs(s: string)
    ensures TrimSlash(s + "/") == s
    ensures (forall t :: s != t + "/") ==> TrimSlash(s) == s
  {
    assert (s + "/")[..|s|] == s;
    if |s| > 0 && s[|s| - 1] == '/' {
      assert s == s[..|s| - 1] + "/";
    }
  }
}
