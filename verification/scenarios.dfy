/**
 * Worked requests against the module's built-in table of Incapsula ranges
 * (mod_incapsula.c:45-54), each an instance of the general walk.
 */
module Scenarios {
  import opened Wrappers
  import opened Inet
  import opened TrustTable
  import opened Tokens
  import opened ChainWalk
  import opened ConnCache

  /**
   * The default trusted proxies, all external: set_ic_default_proxies pushes
   * zeroed entries and never sets the internal flag (lines 169-191).
   */
  const DefaultTable: seq<Entry> := [
    Entry(Cidr(Inet4, [199, 83, 128, 0], 21), false),
    Entry(Cidr(Inet4, [198, 143, 32, 0], 19), false),
    Entry(Cidr(Inet4, [149, 126, 72, 0], 21), false),
    Entry(Cidr(Inet4, [103, 28, 248, 0], 22), false),
    Entry(Cidr(Inet4, [45, 64, 64, 0], 22), false),
    Entry(Cidr(Inet4, [185, 11, 124, 0], 22), false),
    Entry(Cidr(Inet4, [192, 230, 64, 0], 18), false)
  ]

  function V4(b0: bv8, b1: bv8, b2: bv8, b3: bv8): Addr {
    Address(Inet4, [b0, b1, b2, b3])
  }

  const Edge: Peer := Peer(V4(199, 83, 128, 5), "199.83.128.5")
  const Edge2: Peer := Peer(V4(198, 143, 32, 1), "198.143.32.1")
  const Visitor: Addr := V4(203, 0, 113, 9)
  const Relay: Addr := V4(198, 51, 100, 1)
  const Private: Addr := V4(10, 1, 2, 3)

  /** A resolver that knows the scenario addresses and prints them back the usual way. */
  predicate Resolver(apr: Apr) {
    && apr.lookup("203.0.113.9") == [Visitor]
    && apr.lookup("198.51.100.1") == [Relay]
    && apr.lookup("10.1.2.3") == [Private]
    && apr.show(Visitor) == "203.0.113.9"
    && apr.show(Relay) == "198.51.100.1"
  }

  /** A token without commas or edge spaces is one field, taken as it is. */
  lemma {:induction false} OneToken(s: string)
    requires s != [] && s[0] != ' ' && s[|s| - 1] != ' '
    requires forall i :: 0 <= i < |s| ==> s[i] != ','
    ensures Pop(s) == Cut(None, s) && Trim(s) == s
  {
    assert ',' !in s;
  }

  /** The tokenizer on the single-token headers. */
  lemma VisitorCut()
    ensures Pop("203.0.113.9") == Cut(None, "203.0.113.9") && Trim("203.0.113.9") == "203.0.113.9"
  {
    OneToken("203.0.113.9");
  }

  lemma PrivateCut()
    ensures Pop("10.1.2.3") == Cut(None, "10.1.2.3") && Trim("10.1.2.3") == "10.1.2.3"
  {
    OneToken("10.1.2.3");
  }

  /** The tokenizer on the two-hop header: the relay is cut off first, its space trimmed. */
  lemma TwoHopCut()
    ensures Pop("203.0.113.9, 198.51.100.1") == Cut(Some("203.0.113.9"), " 198.51.100.1")
    ensures Trim(" 198.51.100.1") == "198.51.100.1"
  {
    TwoHopPop();
    RelayTrim();
  }

  lemma TwoHopPop()
    ensures Pop("203.0.113.9, 198.51.100.1") == Cut(Some("203.0.113.9"), " 198.51.100.1")
  {
    assert ',' !in " 198.51.100.1";
    assert "203.0.113.9, 198.51.100.1" == "203.0.113.9" + "," + " 198.51.100.1";
    PopUnique("203.0.113.9, 198.51.100.1", "203.0.113.9", " 198.51.100.1");
  }

  lemma RelayTrim()
    ensures Trim(" 198.51.100.1") == "198.51.100.1"
  {
    assert TrimLeft(" 198.51.100.1") == "198.51.100.1";
  }

  /** The classifier on the scenario addresses. */
  lemma ScenarioClasses()
    ensures !Rejected(Visitor) && !Rejected(Relay) && Rejected(Private)
  {
  }

  lemma EdgeIsTrusted()
    ensures TrustOf(DefaultTable, Edge.addr) == Some(false)
    ensures TrustOf(DefaultTable, Edge2.addr) == Some(false)
  {
    Contains4(DefaultTable[0].subnet, Edge.addr);
    assert Lookup(DefaultTable, Edge.addr) == Some(false);
    Contains4(DefaultTable[0].subnet, Edge2.addr);
    Contains4(DefaultTable[1].subnet, Edge2.addr);
    assert Lookup(DefaultTable, Edge2.addr) == Some(false);
  }

  /**
   * An IPv4 address range with fixed first two bytes and the third byte between
   * `lo` and `hi` inclusive.
   */
  datatype Block = Block(b0: bv8, b1: bv8, lo: bv8, hi: bv8)

  /** Four IPv4 address bytes inside a block. */
  predicate BytesInBlock(b: Block, v: seq<bv8>)
    requires |v| == 4
  {
    v[0] == b.b0 && v[1] == b.b1 && b.lo <= v[2] <= b.hi
  }

  /** An IPv4 address in the block, or an IPv4-mapped IPv6 address whose IPv4 address is. */
  predicate InBlock(b: Block, a: Addr) {
    if a.family == Inet4 then BytesInBlock(b, a.bytes)
    else V4Mapped(a) && BytesInBlock(b, a.bytes[12..])
  }

  /** The seven built-in ranges written out as address ranges, in table order. */
  const DefaultBlocks: seq<Block> := [
    Block(199, 83, 128, 135),  // 199.83.128.0/21
    Block(198, 143, 32, 63),   // 198.143.32.0/19
    Block(149, 126, 72, 79),   // 149.126.72.0/21
    Block(103, 28, 248, 251),  // 103.28.248.0/22
    Block(45, 64, 64, 67),     // 45.64.64.0/22
    Block(185, 11, 124, 127),  // 185.11.124.0/22
    Block(192, 230, 64, 127)   // 192.230.64.0/18
  ]

  /** The third mask byte of each default range: /21, /19, /21, /22, /22, /22, /18. */
  const ThirdMasks: seq<bv8> := [0xF8, 0xE0, 0xF8, 0xFC, 0xFC, 0xFC, 0xC0]

  /** The entry of range i as network and mask bytes. */
  function RangeEntry(i: nat): Entry
    requires i < |DefaultBlocks|
  {
    var b := DefaultBlocks[i];
    Entry(Subnet(Inet4, [b.b0, b.b1, b.lo, 0], [0xFF, 0xFF, ThirdMasks[i], 0]), false)
  }

  /** The CIDR constants of the default table are those entries. */
  lemma DefaultMasks()
    ensures |DefaultTable| == |DefaultBlocks|
    ensures forall i :: 0 <= i < |DefaultTable| ==> DefaultTable[i] == RangeEntry(i)
  {
    assert MaskByte(5) == 0xF8 && MaskByte(3) == 0xE0 && MaskByte(6) == 0xFC && MaskByte(2) == 0xC0;
  }

  /** Under each range's mask, the third byte matches exactly from `lo` to `hi`. */
  lemma ThirdByte(i: nat, x: bv8)
    requires i < |DefaultBlocks|
    ensures MaskedEqual(x, DefaultBlocks[i].lo, ThirdMasks[i]) <==> DefaultBlocks[i].lo <= x <= DefaultBlocks[i].hi
  {
  }

  /** A subnet with two full mask bytes, one partial and one empty, byte by byte. */
  lemma {:induction false} TwoFullBytes(b0: bv8, b1: bv8, lo: bv8, m: bv8, a: Addr)
    requires a.family == Inet4
    ensures Contains(Subnet(Inet4, [b0, b1, lo, 0], [0xFF, 0xFF, m, 0]), a) <==>
      a.bytes[0] == b0 && a.bytes[1] == b1 && MaskedEqual(a.bytes[2], lo, m)
  {
    Contains4(Subnet(Inet4, [b0, b1, lo, 0], [0xFF, 0xFF, m, 0]), a);
  }

  /** A block's subnet contains an address exactly when the address is in the block. */
  lemma {:induction false} BlockSubnet(b: Block, m: bv8, a: Addr)
    requires a.family == Inet4
    requires MaskedEqual(a.bytes[2], b.lo, m) <==> b.lo <= a.bytes[2] <= b.hi
    ensures Contains(Subnet(Inet4, [b.b0, b.b1, b.lo, 0], [0xFF, 0xFF, m, 0]), a) <==> InBlock(b, a)
  {
    TwoFullBytes(b.b0, b.b1, b.lo, m, a);
  }

  /** Each range entry contains exactly the IPv4 addresses of its range. */
  lemma {:induction false} RangeEntryIsBlock4(i: nat, a: Addr)
    requires i < |DefaultBlocks| && a.family == Inet4
    ensures Contains(RangeEntry(i).subnet, a) <==> InBlock(DefaultBlocks[i], a)
  {
    ThirdByte(i, a.bytes[2]);
    BlockSubnet(DefaultBlocks[i], ThirdMasks[i], a);
  }

  /**
   * Each range entry contains exactly the addresses of its range, an IPv4-mapped
   * IPv6 address counting as the IPv4 address it carries.
   */
  lemma {:induction false} RangeEntryIsBlock(i: nat, a: Addr)
    requires i < |DefaultBlocks|
    ensures Contains(RangeEntry(i).subnet, a) <==> InBlock(DefaultBlocks[i], a)
  {
    var b, s := DefaultBlocks[i], RangeEntry(i).subnet;
    ContainsFamilies(s, a);
    if a.family == Inet4 {
      RangeEntryIsBlock4(i, a);
    } else if V4Mapped(a) {
      RangeEntryIsBlock4(i, Unmap(a));
      assert InBlock(b, a) == InBlock(b, Unmap(a));
    } else {
      assert s.family == Inet4;
    }
  }

  /** A table of the seven range entries trusts exactly the addresses in the ranges. */
  lemma {:induction false} RangeTableTrust(t: seq<Entry>, a: Addr)
    requires |t| == |DefaultBlocks|
    requires forall i :: 0 <= i < |t| ==> t[i] == RangeEntry(i)
    ensures Lookup(t, a) ==
      if exists i :: 0 <= i < |DefaultBlocks| && InBlock(DefaultBlocks[i], a) then Some(false) else None
  {
    FirstMatchIsFirst(t, a);
    match FirstMatch(t, a)
    case Some(k) =>
      RangeEntryIsBlock(k, a);
    case None =>
      forall i | 0 <= i < |DefaultBlocks| ensures !InBlock(DefaultBlocks[i], a) {
        RangeEntryIsBlock(i, a);
      }
  }

  /**
   * The built-in table trusts, as an external proxy, exactly the addresses in
   * the seven Incapsula ranges, and stops the walk at every other address.
   */
  lemma {:induction false} DefaultTrust(a: Addr)
    ensures TrustOf(DefaultTable, a) ==
      if exists i :: 0 <= i < |DefaultBlocks| && InBlock(DefaultBlocks[i], a) then Some(false) else None
  {
    DefaultMasks();
    RangeTableTrust(DefaultTable, a);
  }

  /** An address in none of the seven ranges is not trusted. */
  lemma OutsideDefaults(a: Addr)
    requires forall i :: 0 <= i < |DefaultBlocks| ==> !InBlock(DefaultBlocks[i], a)
    ensures TrustOf(DefaultTable, a).None?
  {
    DefaultTrust(a);
  }

  /** The edge 199.83.128.5 as a dual-stack listener sees it: ::ffff:199.83.128.5. */
  const MappedEdge: Addr := Address(Inet6, [0, 0, 0, 0, 0, 0, 0, 0, 0, 0, 0xFF, 0xFF, 199, 83, 128, 5])

  /** The mapped edge is trusted as the edge itself is, as an external proxy. */
  lemma MappedEdgeIsTrusted()
    ensures V4Mapped(MappedEdge) && Unmap(MappedEdge) == Edge.addr
    ensures TrustOf(DefaultTable, MappedEdge) == Some(false)
  {
    assert Unmap(MappedEdge).bytes == Edge.addr.bytes;
    MappedTrustedAsV4(DefaultTable, MappedEdge);
    EdgeIsTrusted();
  }

  const VisitorPeer: Peer := Peer(Visitor, "203.0.113.9")

  /** The walk of the single-hop request: one promotion, then the header is exhausted. */
  lemma {:induction false} SingleHopWalk(apr: Apr, denyAll: bool)
    requires Resolver(apr)
    ensures WalkFrom(Configure(DefaultTable, denyAll), apr, Edge, Some("203.0.113.9"), [], [])
         == Resolved(Walk(VisitorPeer, ["199.83.128.5"], None,
                          [Hop(Edge, false, "203.0.113.9", Visitor)], Exhausted))
  {
    var cfg := Configure(DefaultTable, denyAll);
    EdgeIsTrusted();
    VisitorCut();
    ScenarioClasses();
    AcceptStep(cfg, apr, Edge, "203.0.113.9", [], [], false, Visitor);
    assert PeerOf(apr, Visitor) == VisitorPeer;
    assert [] + [Edge.ip] == ["199.83.128.5"];
  }

  /**
   * An Incapsula edge vouching for one visitor: the visitor becomes the client,
   * the edge is the one proxy listed, nothing is left over.
   */
  lemma {:induction false} SingleHop(apr: Apr, denyAll: bool)
    requires Resolver(apr)
    ensures var cfg := Configure(DefaultTable, denyAll);
      var r := Handle(cfg, apr, FreshConn(Edge), Some("203.0.113.9"));
      var o := Resolve(cfg, apr, Edge, "203.0.113.9");
      && o.Resolved?
      && o.walk.peer == VisitorPeer
      && o.walk.proxies == ["199.83.128.5"]
      && o.walk.remainder.None?
      && r.status == Ok
      && r.conn.client == VisitorPeer
      && r.note == Some("199.83.128.5")
  {
    SingleHopWalk(apr, denyAll);
  }

  /**
   * With DenyAllButIncapsula, a peer outside every range is refused whatever the
   * header, and its connection is left as it was.
   */
  lemma {:induction false} OutsiderRefused(apr: Apr, p: Peer, header: Option<string>)
    requires forall i :: 0 <= i < |DefaultBlocks| ==> !InBlock(DefaultBlocks[i], p.addr)
    ensures var r := Handle(Configure(DefaultTable, true), apr, FreshConn(p), header);
      r.status == Http403 && r.conn == FreshConn(p)
  {
    OutsideDefaults(p.addr);
  }

  /** The walk of an edge claiming a private address: refused at the first token. */
  lemma {:induction false} PrivateClaimWalk(apr: Apr, denyAll: bool)
    requires Resolver(apr)
    ensures WalkFrom(Configure(DefaultTable, denyAll), apr, Edge2, Some("10.1.2.3"), [], [])
         == Resolved(Walk(Edge2, [], Some("10.1.2.3"), [], Reserved(Private)))
  {
    EdgeIsTrusted();
    PrivateCut();
    ScenarioClasses();
  }

  /**
   * An edge claiming a private address: the walk stops at once, the connection
   * keeps the edge's address and the token stays in the remainder.
   */
  lemma {:induction false} PrivateClaimRefused(apr: Apr, denyAll: bool)
    requires Resolver(apr)
    ensures var cfg := Configure(DefaultTable, denyAll);
      var o := Resolve(cfg, apr, Edge2, "10.1.2.3");
      var r := Handle(cfg, apr, FreshConn(Edge2), Some("10.1.2.3"));
      && o == Resolved(Walk(Edge2, [], Some("10.1.2.3"), [], Reserved(Private)))
      && r == Reply(Ok, FreshConn(Edge2), None)
  {
    PrivateClaimWalk(apr, denyAll);
  }

  const RelayEntry: Entry := Entry(Cidr(Inet4, [198, 51, 100, 1], 32), false)

  /** With the relay added after the defaults, the edge is still trusted and external. */
  lemma EdgeTrustedWithRelay()
    ensures TrustOf(DefaultTable + [RelayEntry], Edge.addr) == Some(false)
  {
    EdgeIsTrusted();
    LookupAppendAfterMatch(DefaultTable, [RelayEntry], Edge.addr);
  }

  /** The relay matches only its own entry, which is external. */
  lemma RelayTrusted()
    ensures TrustOf(DefaultTable + [RelayEntry], Relay) == Some(false)
  {
    OutsideDefaults(Relay);
    Contains4(RelayEntry.subnet, Relay);
    LookupAppendAfterMiss(DefaultTable, [RelayEntry], Relay);
  }

  lemma JoinTwo()
    ensures Join(["199.83.128.5", "198.51.100.1"]) == "199.83.128.5, 198.51.100.1"
  {
    assert ["199.83.128.5", "198.51.100.1"][..1] == ["199.83.128.5"];
  }

  const RelayPeer: Peer := Peer(Relay, "198.51.100.1")

  const RelayHop: Hop := Hop(Edge, false, "198.51.100.1", Relay)
  const VisitorHop: Hop := Hop(RelayPeer, false, "203.0.113.9", Visitor)

  /** The second step of the two-hop walk: the relay vouches for the visitor. */
  lemma {:induction false} RelayVouches(apr: Apr, denyAll: bool)
    requires Resolver(apr)
    ensures WalkFrom(Configure(DefaultTable + [RelayEntry], denyAll), apr, RelayPeer,
                     Some("203.0.113.9"), ["199.83.128.5"], [RelayHop])
         == Resolved(Walk(VisitorPeer, ["199.83.128.5", "198.51.100.1"], None,
                          [RelayHop, VisitorHop], Exhausted))
  {
    var cfg := Configure(DefaultTable + [RelayEntry], denyAll);
    RelayTrusted();
    VisitorCut();
    ScenarioClasses();
    AcceptStep(cfg, apr, RelayPeer, "203.0.113.9", ["199.83.128.5"], [RelayHop], false, Visitor);
    assert PeerOf(apr, Visitor) == VisitorPeer;
    assert [RelayHop] + [VisitorHop] == [RelayHop, VisitorHop];
    assert ["199.83.128.5"] + ["198.51.100.1"] == ["199.83.128.5", "198.51.100.1"];
  }

  /** The walk of the two-hop request: the relay first, then the visitor. */
  lemma {:induction false} TwoHopsWalk(apr: Apr, denyAll: bool)
    requires Resolver(apr)
    ensures WalkFrom(Configure(DefaultTable + [RelayEntry], denyAll), apr, Edge,
                     Some("203.0.113.9, 198.51.100.1"), [], [])
         == Resolved(Walk(VisitorPeer, ["199.83.128.5", "198.51.100.1"], None,
                          [RelayHop, VisitorHop], Exhausted))
  {
    var cfg := Configure(DefaultTable + [RelayEntry], denyAll);
    EdgeTrustedWithRelay();
    TwoHopCut();
    ScenarioClasses();
    AcceptStep(cfg, apr, Edge, "203.0.113.9, 198.51.100.1", [], [], false, Relay);
    assert PeerOf(apr, Relay) == RelayPeer;
    assert [] + [Edge.ip] == ["199.83.128.5"] && [] + [RelayHop] == [RelayHop];
    RelayVouches(apr, denyAll);
  }

  /**
   * A second trusted proxy behind the edge: two promotions, nearest proxy
   * first in the list.
   */
  lemma {:induction false} TwoHops(apr: Apr, denyAll: bool)
    requires Resolver(apr)
    ensures var cfg := Configure(DefaultTable + [RelayEntry], denyAll);
      var r := Handle(cfg, apr, FreshConn(Edge), Some("203.0.113.9, 198.51.100.1"));
      && r.status == Ok
      && r.conn.client == VisitorPeer
      && r.note == Some("199.83.128.5, 198.51.100.1")
  {
    TwoHopsWalk(apr, denyAll);
    JoinTwo();
  }

  /** The tokenizer on a header where the relay claims a private address. */
  lemma SmuggledCut()
    ensures Pop("10.1.2.3, 198.51.100.1") == Cut(Some("10.1.2.3"), " 198.51.100.1")
  {
    assert "10.1.2.3, 198.51.100.1" == "10.1.2.3" + "," + " 198.51.100.1";
    PopUnique("10.1.2.3, 198.51.100.1", "10.1.2.3", " 198.51.100.1");
  }

  /** The relay, an external proxy, claims a private address: refused, the token kept. */
  lemma {:induction false} RelayClaimsPrivate(apr: Apr, denyAll: bool)
    requires Resolver(apr)
    ensures WalkFrom(Configure(DefaultTable + [RelayEntry], denyAll), apr, RelayPeer,
                     Some("10.1.2.3"), ["199.83.128.5"], [RelayHop])
         == Resolved(Walk(RelayPeer, ["199.83.128.5"], Some("10.1.2.3"), [RelayHop], Reserved(Private)))
  {
    RelayTrusted();
    PrivateCut();
    ScenarioClasses();
  }

  /** The walk of that header: the edge promotes the relay, whose claim is refused. */
  lemma {:induction false} SmuggledWalk(apr: Apr, denyAll: bool)
    requires Resolver(apr)
    ensures Resolve(Configure(DefaultTable + [RelayEntry], denyAll), apr, Edge, "10.1.2.3, 198.51.100.1")
         == Resolved(Walk(RelayPeer, ["199.83.128.5"], Some("10.1.2.3"), [RelayHop], Reserved(Private)))
  {
    var cfg := Configure(DefaultTable + [RelayEntry], denyAll);
    EdgeTrustedWithRelay();
    SmuggledCut();
    TwoHopCut();
    ScenarioClasses();
    AcceptStep(cfg, apr, Edge, "10.1.2.3, 198.51.100.1", [], [], false, Relay);
    assert PeerOf(apr, Relay) == RelayPeer;
    assert [] + [Edge.ip] == ["199.83.128.5"] && [] + [RelayHop] == [RelayHop];
    RelayClaimsPrivate(apr, denyAll);
  }

  /**
   * The first finding on concrete input: as written, the connection ends on
   * the private address 10.1.2.3 under the relay's text; the corrected model
   * keeps the relay.
   */
  lemma {:induction false} SmuggledPrivateAsWritten(apr: Apr, denyAll: bool)
    requires Resolver(apr)
    ensures var cfg := Configure(DefaultTable + [RelayEntry], denyAll);
      var h := "10.1.2.3, 198.51.100.1";
      var a := HandleAsWritten(cfg, apr, FreshConn(Edge), Some(h));
      && a.Some?
      && a.value.conn.client.addr == Private
      && Handle(cfg, apr, FreshConn(Edge), Some(h)).conn.client == RelayPeer
  {
    var cfg := Configure(DefaultTable + [RelayEntry], denyAll);
    SmuggledWalk(apr, denyAll);
    assert Revert(FreshConn(Edge)).client == Edge;
    ReservedStopStoresRejected(cfg, apr, FreshConn(Edge), "10.1.2.3, 198.51.100.1");
  }

  /** The tokenizer on a header where the relay vouches for a name that does not resolve. */
  lemma BogusCut()
    ensures Pop("bogus, 198.51.100.1") == Cut(Some("bogus"), " 198.51.100.1")
    ensures Pop("bogus") == Cut(None, "bogus") && Trim("bogus") == "bogus"
  {
    assert "bogus, 198.51.100.1" == "bogus" + "," + " 198.51.100.1";
    PopUnique("bogus, 198.51.100.1", "bogus", " 198.51.100.1");
    OneToken("bogus");
  }

  /** The relay's token does not resolve: the walk stops there and keeps the token. */
  lemma {:induction false} RelayCannotParse(apr: Apr, denyAll: bool)
    requires Resolver(apr) && apr.lookup("bogus") == []
    ensures WalkFrom(Configure(DefaultTable + [RelayEntry], denyAll), apr, RelayPeer,
                     Some("bogus"), ["199.83.128.5"], [RelayHop])
         == Resolved(Walk(RelayPeer, ["199.83.128.5"], Some("bogus"), [RelayHop], Unparsable))
  {
    RelayTrusted();
    BogusCut();
  }

  /** The walk of that header: the edge promotes the relay, whose token does not resolve. */
  lemma {:induction false} UnparsableWalk(apr: Apr, denyAll: bool)
    requires Resolver(apr) && apr.lookup("bogus") == []
    ensures Resolve(Configure(DefaultTable + [RelayEntry], denyAll), apr, Edge, "bogus, 198.51.100.1")
         == Resolved(Walk(RelayPeer, ["199.83.128.5"], Some("bogus"), [RelayHop], Unparsable))
  {
    var cfg := Configure(DefaultTable + [RelayEntry], denyAll);
    EdgeTrustedWithRelay();
    BogusCut();
    RelayTrim();
    ScenarioClasses();
    AcceptStep(cfg, apr, Edge, "bogus, 198.51.100.1", [], [], false, Relay);
    assert PeerOf(apr, Relay) == RelayPeer;
    assert [] + [Edge.ip] == ["199.83.128.5"] && [] + [RelayHop] == [RelayHop];
    RelayCannotParse(apr, denyAll);
  }

  /**
   * The third finding on concrete input: as written, the request would copy the
   * proxied address out of the failed lookup's result, so the model gives no
   * reply; the corrected model keeps the relay.
   */
  lemma {:induction false} UnparsableAfterPromotionAsWritten(apr: Apr, denyAll: bool)
    requires Resolver(apr) && apr.lookup("bogus") == []
    ensures var cfg := Configure(DefaultTable + [RelayEntry], denyAll);
      var h := "bogus, 198.51.100.1";
      && HandleAsWritten(cfg, apr, FreshConn(Edge), Some(h)).None?
      && Handle(cfg, apr, FreshConn(Edge), Some(h)).conn.client == RelayPeer
      && Handle(cfg, apr, FreshConn(Edge), Some(h)).note == Some("199.83.128.5")
  {
    var cfg := Configure(DefaultTable + [RelayEntry], denyAll);
    UnparsableWalk(apr, denyAll);
    assert Revert(FreshConn(Edge)).client == Edge;
    UnparsableStopFails(cfg, apr, FreshConn(Edge), "bogus, 198.51.100.1");
    assert IpList(["199.83.128.5"]) == Some("199.83.128.5");
  }

  /**
   * The second finding on concrete input: the single-hop header, then a request
   * without it, then the header again. As written the third request stays on the
   * edge; the corrected model gives it the visitor again.
   */
  lemma {:induction false} StaleDittoExample(apr: Apr, denyAll: bool)
    requires Resolver(apr)
    ensures var cfg := Configure(DefaultTable, denyAll);
      var h := "203.0.113.9";
      var a1 := HandleAsWritten(cfg, apr, FreshConn(Edge), Some(h));
      && a1.Some?
      && var a2 := HandleAsWritten(cfg, apr, a1.value.conn, None);
      && a2.Some? && Usable(a2.value.conn, Some(h))
      && var a3 := HandleAsWritten(cfg, apr, a2.value.conn, Some(h));
      && a3.Some?
      && a3.value.conn.client == Edge
      && a3.value.note == Some("199.83.128.5")
      && Handle(cfg, apr, FreshConn(Edge), Some(h)).conn.client == VisitorPeer
  {
    var cfg := Configure(DefaultTable, denyAll);
    SingleHopWalk(apr, denyAll);
    assert Resolve(cfg, apr, Edge, "203.0.113.9").walk.peer == VisitorPeer;
    StaleDittoAfterRevert(cfg, apr, Edge, "203.0.113.9");
  }
}
