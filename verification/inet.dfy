/**
 * Network addresses as the module sees them: an address family and the raw
 * address bytes (the apr_sockaddr_t of APR), subnets as network and mask bytes
 * (the apr_ipsubnet_t of APR), and the classifier that decides which addresses an
 * external proxy may not vouch for.
 */
module Inet {
  import opened Wrappers

  datatype Family = Inet4 | Inet6

  /** Number of address bytes of a family. */
  function ByteCount(f: Family): nat {
    match f
    case Inet4 => 4
    case Inet6 => 16
  }

  datatype Address = Address(family: Family, bytes: seq<bv8>)

  /** An address whose byte count fits its family. */
  type Addr = a: Address | |a.bytes| == ByteCount(a.family)
    witness Address(Inet4, [0, 0, 0, 0])

  /** A connection endpoint: its address and the textual form kept beside it. */
  datatype Peer = Peer(addr: Addr, ip: string)

  /**
   * The APR calls the module relies on, which are not part of this model:
   * `lookup` is apr_sockaddr_info_get (the resolved address list, empty when the
   * call fails), `show` is apr_sockaddr_ip_get (an address in text form) and
   * `subnet` is apr_ipsubnet_create (an address and optional mask, None on error).
   */
  datatype Apr = Apr(
    lookup: string -> seq<Addr>,
    show: Addr -> string,
    subnet: (string, Option<string>) -> Option<Subnet>)

  /** A header token as the walk reads it: the first address it resolves to. */
  function Parse(apr: Apr, token: string): (r: Option<Addr>)
    ensures r.None? <==> |apr.lookup(token)| == 0
    ensures r.Some? ==> r.value == apr.lookup(token)[0]
  {
    var all := apr.lookup(token);
    if |all| == 0 then None else Some(all[0])
  }

  /** A subnet as network bytes under a mask, both as long as the family's addresses. */
  datatype Subnet = Subnet(family: Family, net: seq<bv8>, mask: seq<bv8>)

  /** Bit `k` of a byte, counting from the most significant bit (k = 0). */
  predicate Bit(m: bv8, k: nat)
    requires k < 8
  {
    (m >> (7 - k)) & 1 == 1
  }

  /** The mask byte that keeps the leading `ones` bits (clamped to 0..8). */
  function MaskByte(ones: int): (m: bv8)
    ensures forall k: nat :: k < 8 ==> (Bit(m, k) <==> k < ones)
  {
    if ones <= 0 then 0x00
    else if ones == 1 then 0x80
    else if ones == 2 then 0xC0
    else if ones == 3 then 0xE0
    else if ones == 4 then 0xF0
    else if ones == 5 then 0xF8
    else if ones == 6 then 0xFC
    else if ones == 7 then 0xFE
    else 0xFF
  }

  /** The subnet `net/len` in CIDR notation. */
  function Cidr(family: Family, net: seq<bv8>, len: nat): (s: Subnet)
    ensures |s.mask| == |s.net| == |net|
    ensures forall i :: 0 <= i < |net| && 8 * (i + 1) <= len ==> s.mask[i] == 0xFF
    ensures forall i :: 0 <= i < |net| && len <= 8 * i ==> s.mask[i] == 0
    ensures forall i, k: nat :: 0 <= i < |net| && k < 8 ==> (Bit(s.mask[i], k) <==> 8 * i + k < len)
  {
    Subnet(family, net, seq(|net|, i requires 0 <= i < |net| => MaskByte(len - 8 * i)))
  }

  /**
   * An IPv4-mapped IPv6 address `::ffff:a.b.c.d` (section 2.5.5.2 of RFC 4291):
   * ten zero bytes, two 0xFF bytes, then the IPv4 address.
   */
  predicate V4Mapped(a: Addr) {
    && a.family == Inet6
    && (forall i :: 0 <= i < 10 ==> a.bytes[i] == 0)
    && a.bytes[10] == 0xFF && a.bytes[11] == 0xFF
  }

  /** The IPv4 address a mapped IPv6 address carries in its last four bytes. */
  function Unmap(a: Addr): (v: Addr)
    requires V4Mapped(a)
    ensures v.family == Inet4 && v.bytes == a.bytes[12..]
  {
    Address(Inet4, a.bytes[12..])
  }

  /** The masked bytes agree with the network, and the lengths fit. */
  predicate MaskedMatch(s: Subnet, bytes: seq<bv8>) {
    && |s.net| == |bytes|
    && |s.mask| == |bytes|
    && forall i :: 0 <= i < |bytes| ==> MaskedEqual(bytes[i], s.net[i], s.mask[i])
  }

  /**
   * Subnet membership, as APR's apr_ipsubnet_test decides it (mod_incapsula.c:334
   * calls it; APR is not part of this model): an IPv4 subnet holds IPv4
   * addresses and IPv4-mapped IPv6 addresses, compared on their IPv4 bytes; an
   * IPv6 subnet holds the other IPv6 addresses.
   */
  predicate Contains(s: Subnet, a: Addr) {
    if a.family == Inet4 then s.family == Inet4 && MaskedMatch(s, a.bytes)
    else if V4Mapped(a) then s.family == Inet4 && MaskedMatch(s, a.bytes[12..])
    else s.family == Inet6 && MaskedMatch(s, a.bytes)
  }

  /**
   * A mapped address is matched exactly as the IPv4 address it carries, and
   * never by an IPv6 subnet; any other address only by a subnet of its family.
   */
  lemma ContainsFamilies(s: Subnet, a: Addr)
    ensures V4Mapped(a) ==> (Contains(s, a) <==> Contains(s, Unmap(a)))
    ensures V4Mapped(a) && s.family == Inet6 ==> !Contains(s, a)
    ensures !V4Mapped(a) && s.family != a.family ==> !Contains(s, a)
  {
  }

  /** One address byte agrees with one network byte under one mask byte. */
  predicate MaskedEqual(b: bv8, net: bv8, mask: bv8) {
    b & mask == net & mask
  }

  /**
   * The address test applied to a token vouched for by an external proxy
   * (mod_incapsula.c:414-432): IPv4 addresses in 10/8, 127/8, 169.254/16,
   * 172.16/12 and 192.168/16, and IPv6 addresses outside 2000::/3, are refused.
   * The source's mask tests on single bytes are written here as ranges;
   * `RejectedIsMaskedTest` shows the two agree.
   */
  predicate Rejected(a: Addr) {
    match a.family
    case Inet4 =>
      var b0, b1 := a.bytes[0], a.bytes[1];
      || b0 == 10
      || b0 == 127
      || (b0 == 169 && b1 == 254)
      || (b0 == 172 && 16 <= b1 < 32)
      || (b0 == 192 && b1 == 168)
    case Inet6 =>
      !(0x20 <= a.bytes[0] < 0x40)
  }

  /** The test with the source's own byte masks (lines 421-425 and 432). */
  predicate MaskedTest(a: Addr) {
    match a.family
    case Inet4 =>
      var b0, b1 := a.bytes[0], a.bytes[1];
      || b0 == 10
      || b0 == 127
      || (b0 == 169 && b1 == 254)
      || (b0 == 172 && b1 & 0xF0 == 16)
      || (b0 == 192 && b1 == 168)
    case Inet6 =>
      a.bytes[0] & 0xE0 != 0x20
  }

  /** `(b & 0xF0) == 16` holds of exactly the bytes 16 to 31. */
  lemma HighNibble(b: bv8)
    ensures b & 0xF0 == 16 <==> 16 <= b < 32
  {
  }

  /** `(b & 0xE0) == 0x20` holds of exactly the bytes 0x20 to 0x3F. */
  lemma HighThreeBits(b: bv8)
    ensures b & 0xE0 == 0x20 <==> 0x20 <= b < 0x40
  {
  }

  /** The classifier refuses exactly the addresses the source's mask test refuses. */
  lemma {:induction false} RejectedIsMaskedTest(a: Addr)
    ensures Rejected(a) <==> MaskedTest(a)
  {
    HighNibble(a.bytes[1]);
    HighThreeBits(a.bytes[0]);
  }

  /**
   * The IPv4 blocks the classifier refuses: the private blocks of section 3 of
   * RFC 1918 and the loopback and link-local blocks of section 2 of RFC 3330.
   */
  const ReservedV4: seq<Subnet> := [
    Cidr(Inet4, [10, 0, 0, 0], 8),
    Cidr(Inet4, [127, 0, 0, 0], 8),
    Cidr(Inet4, [169, 254, 0, 0], 16),
    Cidr(Inet4, [172, 16, 0, 0], 12),
    Cidr(Inet4, [192, 168, 0, 0], 16)
  ]

  /** The IPv6 Global Unicast block 2000::/3 of section 2.4 of RFC 4291. */
  const GlobalUnicast: Subnet :=
    Cidr(Inet6, [0x20, 0, 0, 0, 0, 0, 0, 0, 0, 0, 0, 0, 0, 0, 0, 0], 3)

  predicate InReservedV4(a: Addr) {
    exists i :: 0 <= i < |ReservedV4| && Contains(ReservedV4[i], a)
  }

  /** Membership in a four-byte subnet, byte by byte. */
  lemma {:induction false} Contains4(s: Subnet, a: Addr)
    requires a.family == Inet4 && s.family == Inet4 && |s.net| == 4 && |s.mask| == 4
    ensures Contains(s, a) <==>
      && MaskedEqual(a.bytes[0], s.net[0], s.mask[0])
      && MaskedEqual(a.bytes[1], s.net[1], s.mask[1])
      && MaskedEqual(a.bytes[2], s.net[2], s.mask[2])
      && MaskedEqual(a.bytes[3], s.net[3], s.mask[3])
  {
    if
      && MaskedEqual(a.bytes[0], s.net[0], s.mask[0])
      && MaskedEqual(a.bytes[1], s.net[1], s.mask[1])
      && MaskedEqual(a.bytes[2], s.net[2], s.mask[2])
      && MaskedEqual(a.bytes[3], s.net[3], s.mask[3])
    {
      forall i | 0 <= i < 4 ensures MaskedEqual(a.bytes[i], s.net[i], s.mask[i]) {
        if i == 0 {} else if i == 1 {} else if i == 2 {} else {}
      }
    }
  }

  /** The masks the CIDR constants stand for. */
  lemma {:induction false} ReservedMasks()
    ensures ReservedV4[0].net == [10, 0, 0, 0] && ReservedV4[0].mask == [0xFF, 0, 0, 0]
    ensures ReservedV4[1].net == [127, 0, 0, 0] && ReservedV4[1].mask == [0xFF, 0, 0, 0]
    ensures ReservedV4[2].net == [169, 254, 0, 0] && ReservedV4[2].mask == [0xFF, 0xFF, 0, 0]
    ensures ReservedV4[3].net == [172, 16, 0, 0] && ReservedV4[3].mask == [0xFF, 0xF0, 0, 0]
    ensures ReservedV4[4].net == [192, 168, 0, 0] && ReservedV4[4].mask == [0xFF, 0xFF, 0, 0]
  {
    assert MaskByte(4) == 0xF0;
  }

  /** Membership in each reserved IPv4 block as a test on the first two bytes. */
  lemma {:induction false} ReservedBlock(i: nat, a: Addr)
    requires i < |ReservedV4| && a.family == Inet4
    ensures Contains(ReservedV4[i], a) <==>
      var b0, b1 := a.bytes[0], a.bytes[1];
      if i == 0 then b0 == 10
      else if i == 1 then b0 == 127
      else if i == 2 then b0 == 169 && b1 == 254
      else if i == 3 then b0 == 172 && b1 & 0xF0 == 16
      else b0 == 192 && b1 == 168
  {
    ReservedMasks();
    Contains4(ReservedV4[i], a);
  }

  /**
   * The classifier's byte tests are exactly CIDR membership in the reserved IPv4
   * blocks, and for IPv6 exactly non-membership in Global Unicast.
   */
  lemma RejectedIsReservedRange(a: Addr)
    ensures Rejected(a) <==>
      || (a.family == Inet4 && InReservedV4(a))
      || (a.family == Inet6 && !Contains(GlobalUnicast, a))
  {
    RejectedIsMaskedTest(a);
    match a.family
    case Inet4 =>
      var b0, b1 := a.bytes[0], a.bytes[1];
      if InReservedV4(a) {
        var i :| 0 <= i < |ReservedV4| && Contains(ReservedV4[i], a);
        ReservedBlock(i, a);
      }
      if Rejected(a) {
        if b0 == 10 { ReservedBlock(0, a); }
        else if b0 == 127 { ReservedBlock(1, a); }
        else if b0 == 169 && b1 == 254 { ReservedBlock(2, a); }
        else if b0 == 172 && b1 & 0xF0 == 16 { ReservedBlock(3, a); }
        else { ReservedBlock(4, a); }
      }
    case Inet6 =>
      var g := GlobalUnicast;
      assert g.mask[0] == 0xE0;
      assert V4Mapped(a) ==> a.bytes[0] == 0;
      if a.bytes[0] & 0xE0 == 0x20 {
        forall i | 0 <= i < 16 ensures MaskedEqual(a.bytes[i], g.net[i], g.mask[i]) {
          if i > 0 { assert g.mask[i] == 0; }
        }
      } else {
        assert !MaskedEqual(a.bytes[0], g.net[0], g.mask[0]);
      }
  }
}
