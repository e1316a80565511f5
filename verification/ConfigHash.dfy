/** The byte encoding behind the rollout hash (`computeConfigHash`).

    SHA-256 is a parameter: everything is stated about the bytes written to it. */
module ConfigHash {
  import opened Strings
  import opened Sorting

  /** One referenced Secret's contribution: its role, and its resourceVersion if it exists. */
  datatype HashEntry = HashEntry(id: string, present: bool, value: string)

  const ABSENT: char := '\U{0}'
  const PRESENT: char := '\U{1}'

  function EntryId(): HashEntry -> string {
    (e: HashEntry) => e.id
  }

  // ----- the encoding -----

  function Digit(d: nat): char
    requires d < 10
  {
    '0' + d as char
  }

  predicate IsDigit(c: char) {
    '0' <= c <= '9'
  }

  /** `fmt.Sprintf("%d", n)` */
  function Decimal(n: nat): string {
    if n < 10 then [Digit(n)] else Decimal(n / 10) + [Digit(n % 10)]
  }

  function Field(b: string): string {
    Decimal(|b|) + [':'] + b + [NUL]
  }

  function EncodeEntry(e: HashEntry): string {
    Field(e.id) + (if e.present then [PRESENT] + Field(e.value) else [ABSENT])
  }

  function EncodeEntries(es: seq<HashEntry>): string {
    if |es| == 0 then "" else EncodeEntry(es[0]) + EncodeEntries(es[1..])
  }

  function Encode(config: string, es: seq<HashEntry>): string {
    Field(config) + EncodeEntries(es)
  }

  // ----- an independent decoder -----

  function Number(s: string): nat
    requires forall c | c in s :: IsDigit(c)
  {
    if |s| == 0 then 0 else
    assert IsDigit(s[|s| - 1]) by { assert s[|s| - 1] in s; }
    10 * Number(s[..|s| - 1]) + (s[|s| - 1] as nat - '0' as nat)
  }

  /** How many digits `s` starts with. */
  function Span(s: string): (k: nat)
    ensures k <= |s| && (forall i | 0 <= i < k :: IsDigit(s[i])) && (k < |s| ==> !IsDigit(s[k]))
  {
    if |s| == 0 || !IsDigit(s[0]) then 0 else 1 + Span(s[1..])
  }

  /** Read one length-delimited field; a length with leading zeros is refused. */
  function DecodeField(s: string): (r: Option<(string, string)>)
    ensures r.Some? ==> |r.value.1| < |s|
  {
    var k := Span(s);
    if k == |s| || s[k] != ':' then None else
    var n := Number(s[..k]);
    if Decimal(n) != s[..k] || |s| < k + n + 2 || s[k + 1 + n] != NUL then None
    else Some((s[k + 1..k + 1 + n], s[k + 2 + n..]))
  }

  function DecodeEntry(s: string): (r: Option<(HashEntry, string)>)
    ensures r.Some? ==> |r.value.1| < |s|
  {
    match DecodeField(s)
    case None => None
    case Some((id, rest)) =>
      if |rest| == 0 then None
      else if rest[0] == ABSENT then Some((HashEntry(id, false, ""), rest[1..]))
      else if rest[0] != PRESENT then None
      else match DecodeField(rest[1..])
           case None => None
           case Some((value, rest')) => Some((HashEntry(id, true, value), rest'))
  }

  function DecodeEntries(s: string): Option<seq<HashEntry>>
    decreases |s|
  {
    if |s| == 0 then Some([]) else
    match DecodeEntry(s)
    case None => None
    case Some((e, rest)) =>
      match DecodeEntries(rest)
      case None => None
      case Some(es) => Some([e] + es)
  }

  function Decode(s: string): Option<(string, seq<HashEntry>)> {
    match DecodeField(s)
    case None => None
    case Some((config, rest)) =>
      match DecodeEntries(rest)
      case None => None
      case Some(es) => Some((config, es))
  }

  // ----- round trip -----

  lemma {:induction false} DecimalIsNumeral(n: nat)
    ensures |Decimal(n)| > 0
    ensures forall c | c in Decimal(n) :: IsDigit(c)
    ensures Number(Decimal(n)) == n
  {
    if n >= 10 {
      DecimalIsNumeral(n / 10);
      var d, t := Decimal(n), Decimal(n / 10);
      assert d[..|d| - 1] == t && d[|d| - 1] == Digit(n % 10);
    } else {
      var d := Decimal(n);
      assert d[..|d| - 1] == [];
    }
  }

  lemma {:induction false} SpanStopsAtColon(d: string, rest: string)
    requires forall c | c in d :: IsDigit(c)
    ensures Span(d + [':'] + rest) == |d|
  {
    var s := d + [':'] + rest;
    if d == [] {
      assert s[0] == ':';
    } else {
      assert s[0] == d[0] && s[1..] == d[1..] + [':'] + rest;
      SpanStopsAtColon(d[1..], rest);
    }
  }

  lemma FieldRoundTrip(b: string, rest: string)
    ensures DecodeField(Field(b) + rest) == Some((b, rest))
  {
    var d := Decimal(|b|);
    var s := Field(b) + rest;
    DecimalIsNumeral(|b|);
    assert s == d + [':'] + (b + [NUL] + rest);
    SpanStopsAtColon(d, b + [NUL] + rest);
    assert s[..|d|] == d && s[|d|] == ':';
    assert s[|d| + 1..|d| + 1 + |b|] == b && s[|d| + 1 + |b|] == NUL;
    assert s[|d| + 2 + |b|..] == rest;
  }

  /** The decoder accepts only what the encoder writes. */
  lemma FieldCanonical(s: string)
    requires DecodeField(s).Some?
    ensures s == Field(DecodeField(s).value.0) + DecodeField(s).value.1
  {
  }

  /** An absent entry writes no value, so decoding yields it without one. */
  function Normal(e: HashEntry): HashEntry {
    if e.present then e else HashEntry(e.id, false, "")
  }

  function NormalAll(es: seq<HashEntry>): (r: seq<HashEntry>)
    ensures |r| == |es| && forall i | 0 <= i < |es| :: r[i] == Normal(es[i])
  {
    seq(|es|, i requires 0 <= i < |es| => Normal(es[i]))
  }

  lemma PresentRoundTrip(id: string, value: string, rest: string)
    ensures DecodeEntry(Field(id) + ([PRESENT] + (Field(value) + rest))) == Some((HashEntry(id, true, value), rest))
  {
    var tail := [PRESENT] + (Field(value) + rest);
    FieldRoundTrip(id, tail);
    assert tail[0] == PRESENT && tail[1..] == Field(value) + rest;
    FieldRoundTrip(value, rest);
  }

  lemma AbsentRoundTrip(id: string, rest: string)
    ensures DecodeEntry(Field(id) + ([ABSENT] + rest)) == Some((HashEntry(id, false, ""), rest))
  {
    var tail := [ABSENT] + rest;
    FieldRoundTrip(id, tail);
    assert tail[0] == ABSENT && tail[1..] == rest;
  }

  lemma EntryRoundTrip(e: HashEntry, rest: string)
    ensures DecodeEntry(EncodeEntry(e) + rest) == Some((Normal(e), rest))
  {
    if e.present {
      PresentRoundTrip(e.id, e.value, rest);
      AppendAssociative([PRESENT], Field(e.value), rest);
      AppendAssociative(Field(e.id), [PRESENT] + Field(e.value), rest);
    } else {
      AbsentRoundTrip(e.id, rest);
      AppendAssociative(Field(e.id), [ABSENT], rest);
    }
  }

  lemma {:induction false} EntriesRoundTrip(es: seq<HashEntry>)
    ensures DecodeEntries(EncodeEntries(es)) == Some(NormalAll(es))
  {
    if es == [] {
      assert NormalAll(es) == [];
    } else {
      EntryRoundTrip(es[0], EncodeEntries(es[1..]));
      EntriesRoundTrip(es[1..]);
      assert |EncodeEntries(es)| > 0 by { DecimalIsNumeral(|es[0].id|); }
      assert NormalAll(es) == [Normal(es[0])] + NormalAll(es[1..]);
    }
  }

  /** Decoding what `computeConfigHash` writes returns the config and the entries in the
      order written, for all byte strings, whatever digits, colons or NULs they hold. */
  lemma RoundTrip(config: string, es: seq<HashEntry>)
    ensures Decode(Encode(config, es)) == Some((config, NormalAll(es)))
  {
    FieldRoundTrip(config, EncodeEntries(es));
    EntriesRoundTrip(es);
  }

  lemma EntryCanonical(s: string)
    requires DecodeEntry(s).Some?
    ensures s == EncodeEntry(DecodeEntry(s).value.0) + DecodeEntry(s).value.1
  {
    var (id, tagged) := DecodeField(s).value;
    FieldCanonical(s);
    if tagged[0] == ABSENT {
      AbsentCanonical(id, tagged);
    } else {
      PresentCanonical(id, tagged);
    }
  }

  lemma AbsentCanonical(id: string, tagged: string)
    requires tagged != [] && tagged[0] == ABSENT
    ensures Field(id) + tagged == EncodeEntry(HashEntry(id, false, "")) + tagged[1..]
  {
    assert tagged == [ABSENT] + tagged[1..];
    AppendAssociative(Field(id), [ABSENT], tagged[1..]);
  }

  lemma PresentCanonical(id: string, tagged: string)
    requires tagged != [] && tagged[0] == PRESENT && DecodeField(tagged[1..]).Some?
    ensures var (value, rest) := DecodeField(tagged[1..]).value;
            Field(id) + tagged == EncodeEntry(HashEntry(id, true, value)) + rest
  {
    var (value, rest) := DecodeField(tagged[1..]).value;
    FieldCanonical(tagged[1..]);
    assert tagged == [PRESENT] + (Field(value) + rest);
    AppendAssociative([PRESENT], Field(value), rest);
    AppendAssociative(Field(id), [PRESENT] + Field(value), rest);
  }

  lemma AppendAssociative(a: string, b: string, c: string)
    ensures a + (b + c) == (a + b) + c
  {
  }

  lemma {:induction false} EntriesCanonical(s: string)
    requires DecodeEntries(s).Some?
    ensures EncodeEntries(DecodeEntries(s).value) == s
    decreases |s|
  {
    if |s| == 0 {
    } else {
      var (e, rest) := DecodeEntry(s).value;
      EntryCanonical(s);
      EntriesCanonical(rest);
      var es := DecodeEntries(rest).value;
      assert ([e] + es)[1..] == es;
    }
  }

  /** The other direction: whatever the decoder accepts is exactly one encoding. */
  lemma DecodeCanonical(s: string)
    requires Decode(s).Some?
    ensures Encode(Decode(s).value.0, Decode(s).value.1) == s
  {
    FieldCanonical(s);
    EntriesCanonical(DecodeField(s).value.1);
  }

  lemma {:induction false} NormalEncodesAlike(es: seq<HashEntry>)
    ensures EncodeEntries(NormalAll(es)) == EncodeEntries(es)
  {
    if es == [] {
    } else {
      NormalEncodesAlike(es[1..]);
      assert NormalAll(es)[1..] == NormalAll(es[1..]);
    }
  }

  /** Two inputs collide exactly when they differ at most in the values of absent entries. */
  lemma EncodeInjective(c1: string, es1: seq<HashEntry>, c2: string, es2: seq<HashEntry>)
    ensures Encode(c1, es1) == Encode(c2, es2) <==> c1 == c2 && NormalAll(es1) == NormalAll(es2)
  {
    RoundTrip(c1, es1);
    RoundTrip(c2, es2);
    NormalEncodesAlike(es1);
    NormalEncodesAlike(es2);
  }

  // ----- sorting -----

  /** Entries of the same role must encode alike for the hash not to depend on the order
      in which an unstable sort leaves them. */
  ghost predicate SameIdSameCode(es: seq<HashEntry>) {
    forall e, f | e in es && f in es && e.id == f.id :: Normal(e) == Normal(f)
  }

  /** `code` is what `computeConfigHash` may feed to SHA-256 for these arguments. */
  ghost predicate Preimage(code: string, config: string, es: seq<HashEntry>) {
    exists sorted: seq<HashEntry> :: SortResult(sorted, es, EntryId()) && code == Encode(config, sorted)
  }

  lemma NormalAllRemove(b: seq<HashEntry>, q: nat)
    requires q < |b|
    ensures multiset(NormalAll(b)) ==
            multiset{Normal(b[q])} + multiset(NormalAll(b[..q] + b[q + 1..]))
  {
    MultisetRemove(NormalAll(b), q);
    assert NormalAll(b[..q] + b[q + 1..]) == NormalAll(b)[..q] + NormalAll(b)[q + 1..];
  }

  lemma {:induction false} NormalAllPermutes(a: seq<HashEntry>, b: seq<HashEntry>)
    requires multiset(a) == multiset(b)
    ensures multiset(NormalAll(a)) == multiset(NormalAll(b))
  {
    if a != [] {
      var q := MatchHead(a, b);
      var rest := b[..q] + b[q + 1..];
      NormalAllPermutes(a[1..], rest);
      NormalAllRemove(b, q);
      MultisetHead(NormalAll(a));
      assert NormalAll(a)[1..] == NormalAll(a[1..]);
    } else {
      SameSize(a, b);
      assert NormalAll(a) == NormalAll(b);
    }
  }

  lemma SortResultsNormalAlike(a: seq<HashEntry>, b: seq<HashEntry>)
    requires Sorted(a, EntryId()) && Sorted(b, EntryId()) && multiset(a) == multiset(b)
    requires SameIdSameCode(a)
    ensures NormalAll(a) == NormalAll(b)
  {
    NormalAllPermutes(a, b);
    SortResultUnique(NormalAll(a), NormalAll(b), EntryId());
  }

  lemma SwapIsSortResult(s: seq<HashEntry>, i: nat, j: nat)
    requires Sorted(s, EntryId()) && i < j < |s| && s[i].id == s[j].id
    ensures SortResult(s[i := s[j]][j := s[i]], s, EntryId())
  {
  }

  lemma PreimageUniqueIf(config: string, es: seq<HashEntry>, x: string, y: string)
    requires SameIdSameCode(es) && Preimage(x, config, es) && Preimage(y, config, es)
    ensures x == y
  {
    var a: seq<HashEntry> :| SortResult(a, es, EntryId()) && x == Encode(config, a);
    var b: seq<HashEntry> :| SortResult(b, es, EntryId()) && y == Encode(config, b);
    forall e | e in a ensures e in es {
      assert e in multiset(a) && e in multiset(es);
    }
    SortResultsNormalAlike(a, b);
    EncodeInjective(config, a, config, b);
  }

  lemma SwapChangesCode(config: string, es: seq<HashEntry>, s: seq<HashEntry>, i: nat, j: nat)
      returns (x: string, y: string)
    requires SortResult(s, es, EntryId())
    requires i < j < |s| && s[i].id == s[j].id && Normal(s[i]) != Normal(s[j])
    ensures Preimage(x, config, es) && Preimage(y, config, es) && x != y
  {
    var t := s[i := s[j]][j := s[i]];
    SwapIsSortResult(s, i, j);
    assert NormalAll(s)[i] != NormalAll(t)[i];
    EncodeInjective(config, s, config, t);
    x, y := Encode(config, s), Encode(config, t);
  }

  lemma PreimageUniqueOnlyIf(config: string, es: seq<HashEntry>) returns (x: string, y: string)
    requires !SameIdSameCode(es)
    ensures Preimage(x, config, es) && Preimage(y, config, es) && x != y
  {
    var e, f :| e in es && f in es && e.id == f.id && Normal(e) != Normal(f);
    var s := SortBy(es, EntryId());
    SortBySorts(es, EntryId());
    assert e in multiset(es) && f in multiset(es);
    var p :| 0 <= p < |s| && s[p] == e;
    var q :| 0 <= q < |s| && s[q] == f;
    if p < q {
      x, y := SwapChangesCode(config, es, s, p, q);
    } else {
      x, y := SwapChangesCode(config, es, s, q, p);
    }
  }

  /** The hashed bytes are a function of the entries as a bag exactly when entries of the
      same role encode alike: then any two results of the sort give the same bytes, and
      otherwise two results of the sort give different bytes. */
  lemma PreimageUnique(config: string, es: seq<HashEntry>)
    ensures SameIdSameCode(es) <==>
            forall x, y | Preimage(x, config, es) && Preimage(y, config, es) :: x == y
  {
    if SameIdSameCode(es) {
      forall x, y | Preimage(x, config, es) && Preimage(y, config, es) ensures x == y {
        PreimageUniqueIf(config, es, x, y);
      }
    } else {
      var x, y := PreimageUniqueOnlyIf(config, es);
    }
  }

  /** Permuting entries of distinct roles does not change the hashed bytes. */
  lemma PermutationInvariant(config: string, es: seq<HashEntry>, fs: seq<HashEntry>, x: string, y: string)
    requires multiset(es) == multiset(fs) && DistinctKeys(es, EntryId())
    requires Preimage(x, config, es) && Preimage(y, config, fs)
    ensures x == y == Encode(config, SortBy(es, EntryId()))
  {
    var a :| SortResult(a, es, EntryId()) && x == Encode(config, a);
    var b :| SortResult(b, fs, EntryId()) && y == Encode(config, b);
    var s := SortBy(es, EntryId());
    SortBySorts(es, EntryId());
    DistinctKeysPermute(es, s, EntryId());
    SortResultUnique(s, a, EntryId());
    SortResultUnique(s, b, EntryId());
  }

  // ----- the hasher -----

  /** A running hash: it has seen the bytes written so far. */
  class Hasher {
    var written: string

    constructor ()
      ensures written == ""
    {
      written := "";
    }

    method Write(b: string)
      modifies this
      ensures written == old(written) + b
    {
      written := written + b;
    }

    /** Length-prefix the field so its boundaries are unambiguous. */
    method WriteField(b: string)
      modifies this
      ensures written == old(written) + Field(b)
    {
      Write(Decimal(|b|) + [':']);
      Write(b);
      Write([NUL]);
      assert written == old(written) + Field(b);
    }
  }

  lemma {:induction false} EncodeEntriesAppend(es: seq<HashEntry>, e: HashEntry)
    ensures EncodeEntries(es + [e]) == EncodeEntries(es) + EncodeEntry(e)
  {
    if es == [] {
      assert es + [e] == [e] && [e][1..] == [];
    } else {
      assert (es + [e])[1..] == es[1..] + [e];
      EncodeEntriesAppend(es[1..], e);
    }
  }

  lemma EncodeNext(config: string, es: seq<HashEntry>, e: HashEntry)
    ensures Encode(config, es + [e]) == Encode(config, es) + EncodeEntry(e)
  {
    EncodeEntriesAppend(es, e);
    AppendAssociative(Field(config), EncodeEntries(es), EncodeEntry(e));
  }

  method ComputeConfigHash(sha: string -> string, config: string, entries: seq<HashEntry>) returns (hash: string)
    ensures exists code :: Preimage(code, config, entries) && hash == sha(code)
    ensures DistinctKeys(entries, EntryId()) ==> hash == sha(Encode(config, SortBy(entries, EntryId())))
  {
    var sorted := SortFunc(entries, EntryId());
    var h := new Hasher();
    h.WriteField(config);
    assert h.written == Encode(config, sorted[..0]);
    for i := 0 to |sorted|
      invariant h.written == Encode(config, sorted[..i])
    {
      var e := sorted[i];
      ghost var before := h.written;
      h.WriteField(e.id);
      if e.present {
        h.Write([PRESENT]);
        h.WriteField(e.value);
        AppendAssociative(before + Field(e.id), [PRESENT], Field(e.value));
        AppendAssociative(before, Field(e.id), [PRESENT] + Field(e.value));
      } else {
        h.Write([ABSENT]);
        AppendAssociative(before, Field(e.id), [ABSENT]);
      }
      assert h.written == before + EncodeEntry(e);
      assert sorted[..i + 1] == sorted[..i] + [e];
      EncodeNext(config, sorted[..i], e);
    }
    assert sorted[..|sorted|] == sorted;
    assert Preimage(h.written, config, entries);
    hash := sha(h.written);
  }
}
