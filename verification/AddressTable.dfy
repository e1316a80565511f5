/** The snapshot of the IANA Special-Purpose Address Space registries, row by row,
    and the closed form of the dial policy over both address spaces. */
module AddressTable {
  import opened Strings
  import opened AddressPolicy
  import opened DialPolicy

  /** The block sizes that occur in the registries. */
  lemma Sizes4()
    ensures Pow2(0) == 1 && Pow2(3) == 8 && Pow2(8) == 0x100 && Pow2(16) == 0x1_0000
    ensures Pow2(17) == 0x2_0000 && Pow2(20) == 0x10_0000 && Pow2(22) == 0x40_0000
    ensures Pow2(24) == 0x100_0000 && Pow2(28) == 0x1000_0000
  {
  }

  lemma Sizes6()
    ensures Pow2(0) == 1 && Pow2(32) == 0x1_0000_0000
    ensures Pow2(64) == 0x1_0000_0000_0000_0000
    ensures Pow2(80) == 0x1_0000_0000_0000_0000_0000
    ensures Pow2(96) == 0x1_0000_0000_0000_0000_0000_0000
    ensures Pow2(100) == 0x10_0000_0000_0000_0000_0000_0000
    ensures Pow2(105) == 0x200_0000_0000_0000_0000_0000_0000
    ensures Pow2(108) == 0x1000_0000_0000_0000_0000_0000_0000
    ensures Pow2(112) == 0x1_0000_0000_0000_0000_0000_0000_0000
    ensures Pow2(118) == 0x40_0000_0000_0000_0000_0000_0000_0000
    ensures Pow2(121) == 0x200_0000_0000_0000_0000_0000_0000_0000
  {
  }

  /** `specialPurposeRange` on a literal. */
  function Cidr(family: Family, base: nat, ones: nat, reachable: bool): Record
    requires ValidBlock(Block(family, base, ones, reachable))
  {
    Block(family, base, ones, reachable)
  }

  const IPV4_BELOW_192: seq<Record> := (Sizes4(); [
    Cidr(IPv4, 0, 8, false),  // 0.0.0.0/8
    Cidr(IPv4, 0, 32, false),  // 0.0.0.0/32
    Cidr(IPv4, 0x0a00_0000, 8, false),  // 10.0.0.0/8
    Cidr(IPv4, 0x6440_0000, 10, false),  // 100.64.0.0/10
    Cidr(IPv4, 0x7f00_0000, 8, false),  // 127.0.0.0/8
    Cidr(IPv4, 0xa9fe_0000, 16, false),  // 169.254.0.0/16
    Cidr(IPv4, 0xac10_0000, 12, false)  // 172.16.0.0/12
  ])

  const IPV4_192_0: seq<Record> := (Sizes4(); [
    Cidr(IPv4, 0xc000_0000, 24, false),  // 192.0.0.0/24
    Cidr(IPv4, 0xc000_0000, 29, false),  // 192.0.0.0/29
    Cidr(IPv4, 0xc000_0008, 32, false),  // 192.0.0.8/32
    Cidr(IPv4, 0xc000_0009, 32, true),  // 192.0.0.9/32
    Cidr(IPv4, 0xc000_000a, 32, true),  // 192.0.0.10/32
    Cidr(IPv4, 0xc000_00aa, 32, false),  // 192.0.0.170/32
    Cidr(IPv4, 0xc000_00ab, 32, false),  // 192.0.0.171/32
    Cidr(IPv4, 0xc000_0200, 24, false)  // 192.0.2.0/24
  ])

  const IPV4_ABOVE: seq<Record> := (Sizes4(); [
    Cidr(IPv4, 0xc01f_c400, 24, true),  // 192.31.196.0/24
    Cidr(IPv4, 0xc034_c100, 24, true),  // 192.52.193.0/24
    Cidr(IPv4, 0xc058_6300, 24, false),  // 192.88.99.0/24
    Cidr(IPv4, 0xc058_6302, 32, false),  // 192.88.99.2/32
    Cidr(IPv4, 0xc0a8_0000, 16, false),  // 192.168.0.0/16
    Cidr(IPv4, 0xc0af_3000, 24, true),  // 192.175.48.0/24
    Cidr(IPv4, 0xc612_0000, 15, false),  // 198.18.0.0/15
    Cidr(IPv4, 0xc633_6400, 24, false),  // 198.51.100.0/24
    Cidr(IPv4, 0xcb00_7100, 24, false),  // 203.0.113.0/24
    Cidr(IPv4, 0xf000_0000, 4, false),  // 240.0.0.0/4
    Cidr(IPv4, 0xffff_ffff, 32, false)  // 255.255.255.255/32
  ])

  const IPV6_BELOW_2001: seq<Record> := (Sizes6(); [
    Cidr(IPv6, 1, 128, false),  // ::1/128
    Cidr(IPv6, 0, 128, false),  // ::/128
    Cidr(IPv6, 0x0000_0000_0000_0000_0000_ffff_0000_0000, 96, false),  // ::ffff:0:0/96
    Cidr(IPv6, 0x0064_ff9b_0000_0000_0000_0000_0000_0000, 96, true),  // 64:ff9b::/96
    Cidr(IPv6, 0x0064_ff9b_0001_0000_0000_0000_0000_0000, 48, false),  // 64:ff9b:1::/48
    Cidr(IPv6, 0x0100_0000_0000_0000_0000_0000_0000_0000, 64, false),  // 100::/64
    Cidr(IPv6, 0x0100_0000_0000_0001_0000_0000_0000_0000, 64, false)  // 100:0:0:1::/64
  ])

  const IPV6_2001: seq<Record> := (Sizes6(); [
    Cidr(IPv6, 0x2001_0000_0000_0000_0000_0000_0000_0000, 23, false),  // 2001::/23
    Cidr(IPv6, 0x2001_0000_0000_0000_0000_0000_0000_0000, 32, false),  // 2001::/32
    Cidr(IPv6, 0x2001_0001_0000_0000_0000_0000_0000_0001, 128, true),  // 2001:1::1/128
    Cidr(IPv6, 0x2001_0001_0000_0000_0000_0000_0000_0002, 128, true),  // 2001:1::2/128
    Cidr(IPv6, 0x2001_0001_0000_0000_0000_0000_0000_0003, 128, true),  // 2001:1::3/128
    Cidr(IPv6, 0x2001_0002_0000_0000_0000_0000_0000_0000, 48, false),  // 2001:2::/48
    Cidr(IPv6, 0x2001_0003_0000_0000_0000_0000_0000_0000, 32, true),  // 2001:3::/32
    Cidr(IPv6, 0x2001_0004_0112_0000_0000_0000_0000_0000, 48, true),  // 2001:4:112::/48
    Cidr(IPv6, 0x2001_0010_0000_0000_0000_0000_0000_0000, 28, false),  // 2001:10::/28
    Cidr(IPv6, 0x2001_0020_0000_0000_0000_0000_0000_0000, 28, true),  // 2001:20::/28
    Cidr(IPv6, 0x2001_0030_0000_0000_0000_0000_0000_0000, 28, true),  // 2001:30::/28
    Cidr(IPv6, 0x2001_0db8_0000_0000_0000_0000_0000_0000, 32, false)  // 2001:db8::/32
  ])

  const IPV6_ABOVE: seq<Record> := (Sizes6(); [
    Cidr(IPv6, 0x2002_0000_0000_0000_0000_0000_0000_0000, 16, false),  // 2002::/16
    Cidr(IPv6, 0x2620_004f_8000_0000_0000_0000_0000_0000, 48, true),  // 2620:4f:8000::/48
    Cidr(IPv6, 0x3fff_0000_0000_0000_0000_0000_0000_0000, 20, false),  // 3fff::/20
    Cidr(IPv6, 0x5f00_0000_0000_0000_0000_0000_0000_0000, 16, false),  // 5f00::/16
    Cidr(IPv6, 0xfc00_0000_0000_0000_0000_0000_0000_0000, 7, false),  // fc00::/7
    Cidr(IPv6, 0xfe80_0000_0000_0000_0000_0000_0000_0000, 10, false)  // fe80::/10
  ])

  const IPV4_RECORDS: seq<Record> := IPV4_BELOW_192 + IPV4_192_0 + IPV4_ABOVE

  const IPV6_RECORDS: seq<Record> := IPV6_BELOW_2001 + IPV6_2001 + IPV6_ABOVE

  const TABLE: seq<Record> := IPV4_RECORDS + IPV6_RECORDS

  /** The block of a record, as the interval it is, lies in the closed form, and an
      unreachable block does not start inside a reachable one. */
  ghost predicate Row(r: Record, v: nat) {
    r.base <= v < r.base + Size(r) ==>
      if r.family == IPv4 then if r.reachable then Exempt4(v) else Special4(v) && !Exempt4(r.base)
      else if r.reachable then Exempt6(v) else Special6(v) && !Exempt6(r.base)
  }

  lemma Below192Row(r: Record, v: nat)
    requires r in IPV4_BELOW_192
    ensures Row(r, v)
  {
    Sizes4();
  }

  lemma Block192Row(r: Record, v: nat)
    requires r in IPV4_192_0
    ensures Row(r, v)
  {
  }

  lemma Above192Row(r: Record, v: nat)
    requires r in IPV4_ABOVE
    ensures Row(r, v)
  {
    Sizes4();
  }

  lemma Below2001Row(r: Record, v: nat)
    requires r in IPV6_BELOW_2001
    ensures Row(r, v)
  {
  }

  lemma Block2001Row(r: Record, v: nat)
    requires r in IPV6_2001
    ensures Row(r, v)
  {
    Sizes6();
  }

  lemma Above2001Row(r: Record, v: nat)
    requires r in IPV6_ABOVE
    ensures Row(r, v)
  {
    Sizes6();
  }

  lemma TableRow(r: Record, v: nat)
    requires r in TABLE
    ensures Row(r, v)
  {
    if r in IPV4_BELOW_192 {
      Below192Row(r, v);
    } else if r in IPV4_192_0 {
      Block192Row(r, v);
    } else if r in IPV4_ABOVE {
      Above192Row(r, v);
    } else if r in IPV6_BELOW_2001 {
      Below2001Row(r, v);
    } else if r in IPV6_2001 {
      Block2001Row(r, v);
    } else {
      Above2001Row(r, v);
    }
  }

  lemma NoDenialInside(p: Record, q: Record)
    requires p in TABLE && q in TABLE && p.reachable && !q.reachable
    ensures !Encloses(p, q)
  {
    MatchesInterval(p, Address(q.family, q.base));
    TableRow(p, q.base);
    TableRow(q, q.base);
  }

  lemma TableExceptionsAreLeaves()
    ensures ExceptionsAreLeaves(TABLE)
  {
    forall p, q | p in TABLE && q in TABLE && p.reachable && !q.reachable ensures !Encloses(p, q) {
      NoDenialInside(p, q);
    }
  }

  /** The row that covers a value of the closed form. */
  lemma Below192Covers(v: nat) returns (r: Record)
    requires Special4(v) && v < 0xc000_0000
    ensures r in TABLE && r.family == IPv4 && !r.reachable && r.base <= v < r.base + Size(r)
  {
    Sizes4();
    var t := IPV4_BELOW_192;
    r := if v < 0x0100_0000 then t[0] else if v < 0x0b00_0000 then t[2] else if v < 0x6480_0000 then t[3]
         else if v < 0x8000_0000 then t[4] else if v < 0xa9ff_0000 then t[5] else t[6];
  }

  lemma Block192Covers(v: nat) returns (r: Record)
    requires Special4(v) && 0xc000_0000 <= v < 0xc000_0300
    ensures r in TABLE && r.family == IPv4 && !r.reachable && r.base <= v < r.base + Size(r)
  {
    Sizes4();
    r := if v < 0xc000_0100 then IPV4_192_0[0] else IPV4_192_0[7];
  }

  lemma Above192Covers(v: nat) returns (r: Record)
    requires Special4(v) && v >= 0xc000_0300
    ensures r in TABLE && r.family == IPv4 && !r.reachable && r.base <= v < r.base + Size(r)
  {
    Sizes4();
    var t := IPV4_ABOVE;
    r := if v < 0xc058_6400 then t[2] else if v < 0xc0a9_0000 then t[4] else if v < 0xc614_0000 then t[6]
         else if v < 0xc633_6500 then t[7] else if v < 0xcb00_7200 then t[8] else t[9];
  }

  lemma Special4Covers(v: nat) returns (r: Record)
    requires Special4(v)
    ensures r in TABLE && r.family == IPv4 && !r.reachable && r.base <= v < r.base + Size(r)
  {
    if v < 0xc000_0000 {
      r := Below192Covers(v);
    } else if v < 0xc000_0300 {
      r := Block192Covers(v);
    } else {
      r := Above192Covers(v);
    }
  }

  lemma Exempt4Covers(v: nat) returns (r: Record)
    requires Exempt4(v)
    ensures r in TABLE && r.family == IPv4 && r.reachable && r.base <= v < r.base + Size(r)
  {
    Sizes4();
    var t := IPV4_ABOVE;
    r := if v == 0xc000_0009 then IPV4_192_0[3] else if v == 0xc000_000a then IPV4_192_0[4]
         else if v < 0xc01f_c500 then t[0] else if v < 0xc034_c200 then t[1] else t[5];
  }

  lemma Special6Covers(v: nat) returns (r: Record)
    requires Special6(v)
    ensures r in TABLE && r.family == IPv6 && !r.reachable && r.base <= v < r.base + Size(r)
  {
    Sizes6();
    var s, t, u := IPV6_BELOW_2001, IPV6_2001, IPV6_ABOVE;
    r := if v == 1 then s[0] else if v == 0 then s[1] else if v < 0x1_0000_0000_0000 then s[2]
         else if v < 0x0064_ff9b_0002_0000_0000_0000_0000_0000 then s[4]
         else if v < 0x0100_0000_0000_0001_0000_0000_0000_0000 then s[5]
         else if v < 0x0100_0000_0000_0002_0000_0000_0000_0000 then s[6]
         else if v < 0x2001_0200_0000_0000_0000_0000_0000_0000 then t[0]
         else if v < 0x2001_0db9_0000_0000_0000_0000_0000_0000 then t[11]
         else if v < 0x2003_0000_0000_0000_0000_0000_0000_0000 then u[0]
         else if v < 0x3fff_1000_0000_0000_0000_0000_0000_0000 then u[2]
         else if v < 0x5f01_0000_0000_0000_0000_0000_0000_0000 then u[3]
         else if v < 0xfe00_0000_0000_0000_0000_0000_0000_0000 then u[4] else u[5];
  }

  lemma Anycast6Covers(v: nat) returns (r: Record)
    requires Exempt6(v) && v < 0x2001_0002_0000_0000_0000_0000_0000_0000
    ensures r in TABLE && r.family == IPv6 && r.reachable && r.base <= v < r.base + Size(r)
  {
    Sizes6();
    var t := IPV6_2001;
    r := if v < 0x0064_ff9b_0000_0000_0000_0001_0000_0000 then IPV6_BELOW_2001[3]
         else if v == 0x2001_0001_0000_0000_0000_0000_0000_0001 then t[2]
         else if v == 0x2001_0001_0000_0000_0000_0000_0000_0002 then t[3] else t[4];
  }

  lemma Exempt6Covers(v: nat) returns (r: Record)
    requires Exempt6(v)
    ensures r in TABLE && r.family == IPv6 && r.reachable && r.base <= v < r.base + Size(r)
  {
    if v < 0x2001_0002_0000_0000_0000_0000_0000_0000 {
      r := Anycast6Covers(v);
    } else {
      r := Assigned6Covers(v);
    }
  }

  lemma Assigned6Covers(v: nat) returns (r: Record)
    requires Exempt6(v) && v >= 0x2001_0002_0000_0000_0000_0000_0000_0000
    ensures r in TABLE && r.family == IPv6 && r.reachable && r.base <= v < r.base + Size(r)
  {
    Sizes6();
    var t := IPV6_2001;
    r := if v < 0x2001_0004_0000_0000_0000_0000_0000_0000 then t[6]
         else if v < 0x2001_0005_0000_0000_0000_0000_0000_0000 then t[7]
         else if v < 0x2001_0030_0000_0000_0000_0000_0000_0000 then t[9]
         else if v < 0x2001_0040_0000_0000_0000_0000_0000_0000 then t[10] else IPV6_ABOVE[1];
  }

  lemma CoveredOnlyIf(a: Address, r: Record)
    requires r in TABLE && Matches(r, a)
    ensures if r.reachable then Exempt(a) else Special(a)
  {
    MatchesInterval(r, a);
    TableRow(r, a.value);
  }

  lemma ExemptIsCovered(a: Address)
    requires Exempt(a)
    ensures Covered(TABLE, a, true)
  {
    if a.family == IPv4 {
      var r := Exempt4Covers(a.value);
      MatchesInterval(r, a);
    } else {
      var r := Exempt6Covers(a.value);
      MatchesInterval(r, a);
    }
  }

  lemma Special4IsCovered(v: nat)
    requires Special4(v)
    ensures Covered(TABLE, Address(IPv4, v), false)
  {
    var r := Special4Covers(v);
    MatchesInterval(r, Address(IPv4, v));
  }

  lemma Special6IsCovered(v: nat)
    requires Special6(v)
    ensures Covered(TABLE, Address(IPv6, v), false)
  {
    var r := Special6Covers(v);
    MatchesInterval(r, Address(IPv6, v));
  }

  lemma SpecialIsCovered(a: Address)
    requires Special(a)
    ensures Covered(TABLE, a, false)
  {
    if a.family == IPv4 {
      Special4IsCovered(a.value);
    } else {
      Special6IsCovered(a.value);
    }
  }

  lemma CoveredIsListed(a: Address, reachable: bool)
    requires Covered(TABLE, a, reachable)
    ensures if reachable then Exempt(a) else Special(a)
  {
    var r :| r in TABLE && r.reachable == reachable && Matches(r, a);
    CoveredOnlyIf(a, r);
  }

  lemma TableCoverage(a: Address)
    ensures Covered(TABLE, a, true) <==> Exempt(a)
    ensures Covered(TABLE, a, false) <==> Special(a)
  {
    if Covered(TABLE, a, true) {
      CoveredIsListed(a, true);
    }
    if Covered(TABLE, a, false) {
      CoveredIsListed(a, false);
    }
    if Exempt(a) {
      ExemptIsCovered(a);
    }
    if Special(a) {
      SpecialIsCovered(a);
    }
  }

  /** Longest-prefix match over the 51 records, for every address of either family. */
  lemma TableClosedForm(a: Address)
    ensures Lookup(TABLE, a) == Listed(a)
  {
    TableExceptionsAreLeaves();
    LookupByMembership(TABLE, a);
    TableCoverage(a);
  }

  /** No block is listed under both flags, so `LookupIsLongest` and `RedundantRecord` speak of
      the table. */
  lemma TableConsistent()
    ensures Consistent(TABLE)
  {
    TableExceptionsAreLeaves();
    LeavesConsistent(TABLE);
  }

  /** The table may be kept in any order. */
  lemma TableOrderIrrelevant(t: seq<Record>, a: Address)
    requires multiset(t) == multiset(TABLE)
    ensures Lookup(t, a) == Listed(a)
  {
    TableExceptionsAreLeaves();
    LeavesOrderIndependent(TABLE, t, a);
    TableClosedForm(a);
  }

  /** The policy over the whole of both address spaces: a dial is refused exactly in
      `Refused4` and `Refused6`, and an IPv4-mapped address is always refused. */
  lemma PolicyClosedForm(ip: IP)
    requires ValidIP(ip)
    ensures BlockDiscoveryDial(TABLE, ip) == Refuse <==>
            if ip.Bytes4? then Refused4(ip.value)
            else ip.value / 0x1_0000_0000 == 0xffff || Refused6(ip.value)
  {
    TableClosedForm(AsAddress(ip));
    TableClosedForm(Address(IPv4, ip.value % 0x1_0000_0000));
    PolicyFromListing(TABLE, ip);
  }

  /** All 2^32 embeddings: `64:ff9b::a.b.c.d` gets the verdict of `a.b.c.d`, although the
      table itself marks the prefix reachable. */
  lemma Nat64Verdict(v: nat)
    requires v < 0x1_0000_0000
    ensures IsDisallowedDiscoveryTarget(TABLE, Embedded(v)) == IsDisallowedDiscoveryTarget(TABLE, Bytes4(v))
    ensures Lookup(TABLE, AsAddress(Embedded(v))) == Some(true)
  {
    TableClosedForm(AsAddress(Embedded(v)));
    EmbeddedIsNat64(v);
  }
}
