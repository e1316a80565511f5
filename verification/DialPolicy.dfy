/** The dial policy as a function of the table, and its closed form given what the table says. */
module DialPolicy {
  import opened Strings
  import opened AddressPolicy

  // ----- net.IP -----

  /** A 4-byte or a 16-byte `net.IP`. */
  datatype IP = Bytes4(value: nat) | Bytes16(value: nat)

  ghost predicate ValidIP(ip: IP) {
    if ip.Bytes4? then ip.value < 0x1_0000_0000 else ip.value < 0x1_0000_0000_0000_0000_0000_0000_0000_0000
  }

  /** `ip.To4()`: a 16-byte IPv4-mapped address (`::ffff:0:0/96`) counts as IPv4. */
  function To4(ip: IP): Option<nat> {
    match ip
    case Bytes4(v) => Some(v)
    case Bytes16(v) => if v / 0x1_0000_0000 == 0xffff then Some(v % 0x1_0000_0000) else None
  }

  function AsAddress(ip: IP): Address {
    match To4(ip)
    case Some(v) => Address(IPv4, v)
    case None => Address(IPv6, ip.value)
  }

  // The category tests of package net, on the leading bytes of the address.

  predicate IsLoopback(a: Address) {
    if a.family == IPv4 then a.value / 0x100_0000 == 127 else a.value == 1
  }

  predicate IsPrivate(a: Address) {
    if a.family == IPv4 then
      a.value / 0x100_0000 == 10 || a.value / 0x10_0000 == 172 * 16 + 1 || a.value / 0x1_0000 == 192 * 256 + 168
    else a.value / 0x200_0000_0000_0000_0000_0000_0000_0000 == 0xfc / 2
  }

  predicate IsLinkLocalUnicast(a: Address) {
    if a.family == IPv4 then a.value / 0x1_0000 == 169 * 256 + 254
    else a.value / 0x40_0000_0000_0000_0000_0000_0000_0000 == 0xfe80 / 64
  }

  predicate IsLinkLocalMulticast(a: Address) {
    if a.family == IPv4 then a.value / 0x100 == 224 * 65536
    else a.value / 0x100_0000_0000_0000_0000_0000_0000_0000 == 0xff
         && a.value / 0x1_0000_0000_0000_0000_0000_0000_0000 % 16 == 2
  }

  predicate IsUnspecified(a: Address) {
    a.value == 0
  }

  predicate IsMulticast(a: Address) {
    if a.family == IPv4 then a.value / 0x1000_0000 == 14
    else a.value / 0x100_0000_0000_0000_0000_0000_0000_0000 == 0xff
  }

  /** `64:ff9b::/96`, the prefix of section 2.1 of RFC 6052. */
  predicate IsNat64(ip: IP) {
    To4(ip).None? && ip.value / 0x1_0000_0000 == 0x0064_ff9b_0000_0000_0000_0000
  }

  function IsDisallowedDiscoveryTarget(table: seq<Record>, ip: IP): bool
    decreases if IsNat64(ip) then 1 else 0
  {
    if IsNat64(ip) then IsDisallowedDiscoveryTarget(table, Bytes4(ip.value % 0x1_0000_0000)) else
    match Lookup(table, AsAddress(ip))
    case Some(globallyReachable) => !globallyReachable
    case None =>
      var a := AsAddress(ip);
      IsLoopback(a) || IsPrivate(a) || IsLinkLocalUnicast(a) ||
      IsLinkLocalMulticast(a) || IsUnspecified(a) || IsMulticast(a)
  }

  datatype Verdict = Dial | Refuse

  /** `blockDiscoveryDial` on the parsed address. */
  function BlockDiscoveryDial(table: seq<Record>, ip: IP): Verdict {
    if ip.Bytes16? && ip.value / 0x1_0000_0000 == 0xffff then Refuse
    else if IsDisallowedDiscoveryTarget(table, ip) then Refuse
    else Dial
  }

  // ----- closed form -----

  predicate In(v: nat, base: nat, size: nat) {
    base <= v < base + size
  }

  /** The union of the unreachable IPv4 blocks. */
  predicate Special4(v: nat) {
    || In(v, 0x0000_0000, 0x100_0000)   // 0.0.0.0/8
    || In(v, 0x0a00_0000, 0x100_0000)   // 10.0.0.0/8
    || In(v, 0x6440_0000, 0x40_0000)    // 100.64.0.0/10
    || In(v, 0x7f00_0000, 0x100_0000)   // 127.0.0.0/8
    || In(v, 0xa9fe_0000, 0x1_0000)     // 169.254.0.0/16
    || In(v, 0xac10_0000, 0x10_0000)    // 172.16.0.0/12
    || In(v, 0xc000_0000, 0x100)        // 192.0.0.0/24
    || In(v, 0xc000_0200, 0x100)        // 192.0.2.0/24
    || In(v, 0xc058_6300, 0x100)        // 192.88.99.0/24
    || In(v, 0xc0a8_0000, 0x1_0000)     // 192.168.0.0/16
    || In(v, 0xc612_0000, 0x2_0000)     // 198.18.0.0/15
    || In(v, 0xc633_6400, 0x100)        // 198.51.100.0/24
    || In(v, 0xcb00_7100, 0x100)        // 203.0.113.0/24
    || In(v, 0xf000_0000, 0x1000_0000)  // 240.0.0.0/4
  }

  /** The reachable IPv4 blocks. */
  predicate Exempt4(v: nat) {
    || In(v, 0xc000_0009, 2)      // 192.0.0.9/32, 192.0.0.10/32
    || In(v, 0xc01f_c400, 0x100)  // 192.31.196.0/24
    || In(v, 0xc034_c100, 0x100)  // 192.52.193.0/24
    || In(v, 0xc0af_3000, 0x100)  // 192.175.48.0/24
  }

  predicate Special6(v: nat) {
    || In(v, 0, 2)                                                                          // ::/127
    || In(v, 0xffff_0000_0000, 0x1_0000_0000)                                               // ::ffff:0:0/96
    || In(v, 0x0064_ff9b_0001_0000_0000_0000_0000_0000, 0x1_0000_0000_0000_0000_0000)       // 64:ff9b:1::/48
    || In(v, 0x0100_0000_0000_0000_0000_0000_0000_0000, 0x2_0000_0000_0000_0000)            // 100::/63
    || In(v, 0x2001_0000_0000_0000_0000_0000_0000_0000, 0x200_0000_0000_0000_0000_0000_0000) // 2001::/23
    || In(v, 0x2001_0db8_0000_0000_0000_0000_0000_0000, 0x1_0000_0000_0000_0000_0000_0000)  // 2001:db8::/32
    || In(v, 0x2002_0000_0000_0000_0000_0000_0000_0000, 0x1_0000_0000_0000_0000_0000_0000_0000)  // 2002::/16
    || In(v, 0x3fff_0000_0000_0000_0000_0000_0000_0000, 0x1000_0000_0000_0000_0000_0000_0000)    // 3fff::/20
    || In(v, 0x5f00_0000_0000_0000_0000_0000_0000_0000, 0x1_0000_0000_0000_0000_0000_0000_0000)  // 5f00::/16
    || In(v, 0xfc00_0000_0000_0000_0000_0000_0000_0000, 0x200_0000_0000_0000_0000_0000_0000_0000) // fc00::/7
    || In(v, 0xfe80_0000_0000_0000_0000_0000_0000_0000, 0x40_0000_0000_0000_0000_0000_0000_0000)  // fe80::/10
  }

  predicate Exempt6(v: nat) {
    || In(v, 0x0064_ff9b_0000_0000_0000_0000_0000_0000, 0x1_0000_0000)                       // 64:ff9b::/96
    || In(v, 0x2001_0001_0000_0000_0000_0000_0000_0001, 3)                                   // 2001:1::1 .. 2001:1::3
    || In(v, 0x2001_0003_0000_0000_0000_0000_0000_0000, 0x1_0000_0000_0000_0000_0000_0000)   // 2001:3::/32
    || In(v, 0x2001_0004_0112_0000_0000_0000_0000_0000, 0x1_0000_0000_0000_0000_0000)        // 2001:4:112::/48
    || In(v, 0x2001_0020_0000_0000_0000_0000_0000_0000, 0x20_0000_0000_0000_0000_0000_0000)  // 2001:20::/27
    || In(v, 0x2620_004f_8000_0000_0000_0000_0000_0000, 0x1_0000_0000_0000_0000_0000)        // 2620:4f:8000::/48
  }

  predicate Special(a: Address) {
    if a.family == IPv4 then Special4(a.value) else Special6(a.value)
  }

  predicate Exempt(a: Address) {
    if a.family == IPv4 then Exempt4(a.value) else Exempt6(a.value)
  }

  /** What the table answers, as a union of blocks: the reachable blocks win, then the
      unreachable ones refuse, and nothing else is listed. */
  function Listed(a: Address): Option<bool> {
    if Exempt(a) then Some(true) else if Special(a) then Some(false) else None
  }

  /** Every category test of package net except multicast is subsumed by the table. */
  lemma CategoriesSubsumed(a: Address)
    requires IsLoopback(a) || IsPrivate(a) || IsLinkLocalUnicast(a) || IsUnspecified(a)
    ensures Listed(a).Some?
  {
  }

  lemma LinkLocalMulticastIsMulticast(a: Address)
    requires IsLinkLocalMulticast(a)
    ensures IsMulticast(a)
  {
  }

  /** Outside the NAT64 prefix a listed address gets the negated flag of its longest
      record, and an unlisted one is refused exactly when it is multicast. */
  lemma ListedOrMulticast(table: seq<Record>, ip: IP)
    requires !IsNat64(ip) && Lookup(table, AsAddress(ip)) == Listed(AsAddress(ip))
    ensures IsDisallowedDiscoveryTarget(table, ip) ==
            match Lookup(table, AsAddress(ip)) case Some(flag) => !flag case None => IsMulticast(AsAddress(ip))
  {
    var a := AsAddress(ip);
    if IsLoopback(a) || IsPrivate(a) || IsLinkLocalUnicast(a) || IsUnspecified(a) {
      CategoriesSubsumed(a);
    }
    if IsLinkLocalMulticast(a) {
      LinkLocalMulticastIsMulticast(a);
    }
  }

  /** The verdict on every IPv4 address, without the table. */
  predicate Refused4(v: nat) {
    (Special4(v) && !Exempt4(v)) || In(v, 0xe000_0000, 0x1000_0000)
  }

  /** The verdict on every 16-byte address that is not IPv4-mapped, without the table. */
  predicate Refused6(v: nat) {
    if In(v, 0x0064_ff9b_0000_0000_0000_0000_0000_0000, 0x1_0000_0000) then Refused4(v % 0x1_0000_0000)
    else
      || (Special6(v) && !Exempt6(v))
      || In(v, 0xff00_0000_0000_0000_0000_0000_0000_0000, 0x100_0000_0000_0000_0000_0000_0000_0000)
  }

  lemma Policy4(table: seq<Record>, v: nat)
    requires v < 0x1_0000_0000 && Lookup(table, Address(IPv4, v)) == Listed(Address(IPv4, v))
    ensures IsDisallowedDiscoveryTarget(table, Bytes4(v)) <==> Refused4(v)
  {
    ListedOrMulticast(table, Bytes4(v));
  }

  lemma Policy6(table: seq<Record>, v: nat)
    requires To4(Bytes16(v)) == None && !IsNat64(Bytes16(v)) && ValidIP(Bytes16(v))
    requires Lookup(table, Address(IPv6, v)) == Listed(Address(IPv6, v))
    ensures IsDisallowedDiscoveryTarget(table, Bytes16(v)) <==> Refused6(v)
  {
    ListedOrMulticast(table, Bytes16(v));
  }

  lemma Nat64Embeds(v: nat)
    requires IsNat64(Bytes16(v))
    ensures Refused6(v) == Refused4(v % 0x1_0000_0000)
    ensures Listed(Address(IPv6, v)) == Some(true)
  {
  }

  /** `64:ff9b::a.b.c.d`, as in section 2.2 of RFC 6052. */
  function Embedded(v: nat): IP {
    Bytes16(0x0064_ff9b_0000_0000_0000_0000 * 0x1_0000_0000 + v)
  }

  lemma EmbeddedIsNat64(v: nat)
    requires v < 0x1_0000_0000
    ensures IsNat64(Embedded(v)) && Embedded(v).value % 0x1_0000_0000 == v
    ensures Listed(AsAddress(Embedded(v))) == Some(true)
  {
  }

  lemma PolicyFromListing(table: seq<Record>, ip: IP)
    requires ValidIP(ip) && Lookup(table, AsAddress(ip)) == Listed(AsAddress(ip))
    requires var a := Address(IPv4, ip.value % 0x1_0000_0000); Lookup(table, a) == Listed(a)
    ensures BlockDiscoveryDial(table, ip) == Refuse <==>
            if ip.Bytes4? then Refused4(ip.value)
            else ip.value / 0x1_0000_0000 == 0xffff || Refused6(ip.value)
  {
    if ip.Bytes4? {
      Policy4(table, ip.value);
    } else if To4(ip).None? {
      if IsNat64(ip) {
        Policy4(table, ip.value % 0x1_0000_0000);
        Nat64Embeds(ip.value);
      } else {
        Policy6(table, ip.value);
      }
    }
  }
}
