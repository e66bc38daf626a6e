/**
 * The per-connection cache of incapsula_modify_connection
 * (mod_incapsula.c:269-300, 446-485, 525-545): the first promotion on a
 * connection records its original peer; a request whose header equals the one
 * that produced the cached result reuses it; any other request first reverts the
 * connection to its original peer and walks again.
 */
module ConnCache {
  import opened Wrappers
  import opened Inet
  import opened TrustTable
  import opened Tokens
  import opened ChainWalk

  /**
   * What the connection keeps after a request that promoted: the header value
   * it came from, the original peer, the resulting peer, the joined proxy list
   * (NULL when every hop was internal) and the unconsumed header.
   */
  datatype ConnState = ConnState(prior: string, orig: Peer, proxied: Peer,
                                 proxyIps: Option<string>, remainder: Option<string>)

  /**
   * The cache slot of a connection: nothing yet, the half-filled record left by
   * a 403 on the request that created it (only `orig` is written, line 450), or
   * a complete record (lines 478-532).
   */
  datatype Cache = Empty | Partial(orig: Peer) | Cached(st: ConnState)

  /** A connection: the peer the server takes as the client, and its cache slot. */
  datatype Conn = Conn(client: Peer, cache: Cache)

  datatype Status = Ok | Http403

  /**
   * The result of one request: the status, the connection afterwards, and the
   * value stored in the `incapsula-proxy-ip-list` note (lines 540-545), if any.
   */
  datatype Reply = Reply(status: Status, conn: Conn, note: Option<string>)

  /** The proxy list accumulated with `", "` between items (lines 454-460). */
  function Join(ips: seq<string>): (s: string)
    requires |ips| >= 1
    ensures |ips| == 1 ==> s == ips[0]
  {
    if |ips| == 1 then ips[0] else Join(ips[..|ips| - 1]) + ", " + ips[|ips| - 1]
  }

  /**
   * The list is the same however it is split: the texts before position k,
   * `", "`, then the texts from k on. With the single-text case this fixes the
   * list as the texts in order, each pair separated by `", "`.
   */
  lemma {:induction false} JoinSplit(ips: seq<string>, k: nat)
    requires 1 <= k < |ips|
    ensures Join(ips) == Join(ips[..k]) + ", " + Join(ips[k..])
    decreases |ips|
  {
    var n := |ips|;
    var init, last := ips[..n - 1], ips[n - 1];
    assert Join(ips) == Join(init) + ", " + last;
    if k == n - 1 {
      assert init == ips[..k] && ips[k..] == [last];
    } else {
      var tail := ips[k..];
      assert tail[..|tail| - 1] == init[k..] && tail[|tail| - 1] == last;
      assert Join(tail) == Join(init[k..]) + ", " + last;
      JoinSplit(init, k);
      assert init[..k] == ips[..k];
    }
  }

  /** The `proxy_ips` string: NULL until an external hop is promoted. */
  function IpList(ips: seq<string>): (r: Option<string>)
    ensures r.None? <==> |ips| == 0
  {
    if |ips| == 0 then None else Some(Join(ips))
  }

  /** The peer the connection had before any promotion. */
  function Origin(c: Conn): Peer {
    match c.cache
    case Empty => c.client
    case Partial(orig) => orig
    case Cached(st) => st.orig
  }

  /** Back to the original peer before a new walk, whenever a record exists (lines 277-287). */
  function Revert(c: Conn): (r: Conn)
    ensures r.cache == c.cache
    ensures r.client == Origin(c)
  {
    match c.cache
    case Empty => c
    case Partial(orig) => c.(client := orig)
    case Cached(st) => c.(client := st.orig)
  }

  /** A request whose header equals the cached one skips the walk (line 272). */
  predicate IsDitto(c: Conn, header: Option<string>) {
    c.cache.Cached? && header == Some(c.cache.st.prior)
  }

  /**
   * Whether the source's behaviour on this request is defined: a partial record
   * holds an uninitialised `prior_remote`, which line 272 passes to strcmp when
   * the request carries the header (without it, `remote &&` skips the call).
   */
  predicate Usable(c: Conn, header: Option<string>) {
    !(c.cache.Partial? && header.Some?)
  }

  /**
   * The walk and the bookkeeping after it (lines 294-300, 324-532), on a
   * connection already reverted. `stored` is the peer recorded as the proxied
   * one, so that the as-written variant below can differ in that alone.
   */
  function Finish(cfg: Config, c0: Conn, h: string, o: Outcome, stored: Peer): (r: Reply)
    ensures r.status == Http403 <==> o.Forbidden?
    ensures o.Forbidden? ==> r.conn.client == o.at && r.note.None?
    ensures o.Resolved? && |o.walk.trail| == 0 ==> r == Reply(Ok, c0, None)
    ensures o.Resolved? && |o.walk.trail| > 0 ==>
      && r.conn.client == stored
      && r.note == IpList(o.walk.proxies)
      && r.conn.cache == Cached(ConnState(h, Origin(c0), stored, r.note, o.walk.remainder))
  {
    match o
    case Forbidden(at, hops) =>
      var cache := if c0.cache.Empty? && |hops| > 0 then Partial(c0.client) else c0.cache;
      Reply(Http403, Conn(at, cache), None)
    case Resolved(w) =>
      if |w.trail| == 0 then Reply(Ok, c0, None)
      else
        var st := ConnState(h, Origin(c0), stored, IpList(w.proxies), w.remainder);
        Reply(Ok, Conn(stored, Cached(st)), st.proxyIps)
  }

  /** One request on a reverted connection, storing the peer the walk ended at. */
  function Rewalk(cfg: Config, apr: Apr, c0: Conn, header: Option<string>): (r: Reply)
    requires Usable(c0, header)
    ensures header.None? ==> r.conn == c0 && r.note.None?
    ensures header.None? ==> (r.status == Http403 <==> cfg.denyAll)
    ensures header.Some? ==> var o := Resolve(cfg, apr, c0.client, header.value);
      && (r.status == Http403 <==> o.Forbidden?)
      && (o.Forbidden? ==> r.conn.client == o.at && r.note.None?)
      && (o.Resolved? && |o.walk.trail| == 0 ==> r == Reply(Ok, c0, None))
      && (o.Resolved? && |o.walk.trail| > 0 ==>
            r.conn.client == o.walk.peer && r.note == IpList(o.walk.proxies))
    ensures cfg.denyAll && cfg.trust(c0.client.addr).None? ==> r.status == Http403
    ensures !cfg.denyAll ==> r.status == Ok
    ensures Origin(r.conn) == Origin(c0)
    ensures c0.cache.Cached? ==> r.conn.cache.Cached?
    ensures r.conn.cache.Cached? && r.conn.cache != c0.cache ==>
      var st := r.conn.cache.st;
      && header == Some(st.prior)
      && r.conn.client == st.proxied
      && var o := Resolve(cfg, apr, c0.client, st.prior);
         && o.Resolved? && |o.walk.trail| > 0
         && Chain(cfg, apr, c0.client, o.walk.trail)
         && st.proxied == EndPeer(apr, c0.client, o.walk.trail)
  {
    match header
    case None => Reply(if cfg.denyAll then Http403 else Ok, c0, None)
    case Some(h) =>
      var o := Resolve(cfg, apr, c0.client, h);
      Finish(cfg, c0, h, o, o.Current())
  }

  /** One request (lines 269-300 and on), with the cached result recalled when the header repeats. */
  function Handle(cfg: Config, apr: Apr, c: Conn, header: Option<string>): (r: Reply)
    requires Usable(c, header)
    ensures Origin(r.conn) == Origin(c)
    ensures c.cache.Cached? ==> r.conn.cache.Cached?
    ensures IsDitto(c, header) ==>
      r == Reply(Ok, c.(client := c.cache.st.proxied), c.cache.st.proxyIps)
    ensures !IsDitto(c, header) && header.None? ==>
      r.conn == Revert(c) && r.note.None? && (r.status == Http403 <==> cfg.denyAll)
    ensures !IsDitto(c, header) && header.Some? ==>
      var o := Resolve(cfg, apr, Origin(c), header.value);
      && (r.status == Http403 <==> o.Forbidden?)
      && (o.Resolved? && |o.walk.trail| == 0 ==> r == Reply(Ok, Revert(c), None))
      && (o.Resolved? && |o.walk.trail| > 0 ==>
            r.conn.client == o.walk.peer && r.note == IpList(o.walk.proxies))
    ensures !IsDitto(c, header) && cfg.denyAll && cfg.trust(Origin(c).addr).None? ==>
      r.status == Http403
    ensures !cfg.denyAll ==> r.status == Ok
    ensures Coherent(cfg, apr, c) ==> Coherent(cfg, apr, r.conn)
  {
    if IsDitto(c, header) then
      var st := c.cache.st;
      Reply(Ok, c.(client := st.proxied), st.proxyIps)
    else
      Rewalk(cfg, apr, Revert(c), header)
  }

  /**
   * A cached record agrees with a fresh walk of its header from its original
   * peer: the same end peer, proxy list and remainder, after at least one
   * promotion.
   */
  predicate Coherent(cfg: Config, apr: Apr, c: Conn) {
    match c.cache
    case Cached(st) =>
      var o := Resolve(cfg, apr, st.orig, st.prior);
      && o.Resolved?
      && |o.walk.trail| > 0
      && st.proxied == o.walk.peer
      && st.proxyIps == IpList(o.walk.proxies)
      && st.remainder == o.walk.remainder
    case _ => true
  }

  /** A fresh connection from `peer`. */
  function FreshConn(peer: Peer): Conn {
    Conn(peer, Empty)
  }

  /** What a request answers and whom it names as client depends on the reverted client alone. */
  lemma RewalkIgnoresCache(cfg: Config, apr: Apr, c0: Conn, c1: Conn, header: Option<string>)
    requires Usable(c0, header) && Usable(c1, header) && c0.client == c1.client
    ensures var r0 := Rewalk(cfg, apr, c0, header);
      var r1 := Rewalk(cfg, apr, c1, header);
      r0.status == r1.status && r0.conn.client == r1.conn.client && r0.note == r1.note
  {
  }

  /** A repeated header on a coherent connection answers as a fresh walk of that header would. */
  lemma {:induction false} DittoIsFresh(cfg: Config, apr: Apr, c: Conn, header: Option<string>)
    requires Usable(c, header) && Coherent(cfg, apr, c) && IsDitto(c, header)
    ensures var r := Handle(cfg, apr, c, header);
      var f := Handle(cfg, apr, FreshConn(Origin(c)), header);
      r.status == f.status && r.conn.client == f.conn.client && r.note == f.note
  {
    var f0 := FreshConn(Origin(c));
    assert Revert(f0).client == Origin(c) == c.cache.st.orig;
    assert !IsDitto(f0, header);
  }

  /**
   * The cache is transparent: on a coherent connection a request gets the same
   * status, client and proxy list as on a fresh connection from the original
   * peer.
   */
  lemma {:induction false} CacheIsTransparent(cfg: Config, apr: Apr, c: Conn, header: Option<string>)
    requires Usable(c, header) && Coherent(cfg, apr, c)
    ensures var r := Handle(cfg, apr, c, header);
      var f := Handle(cfg, apr, FreshConn(Origin(c)), header);
      r.status == f.status && r.conn.client == f.conn.client && r.note == f.note
  {
    if IsDitto(c, header) {
      DittoIsFresh(cfg, apr, c, header);
    } else {
      var f0 := FreshConn(Origin(c));
      assert Handle(cfg, apr, c, header) == Rewalk(cfg, apr, Revert(c), header);
      assert Handle(cfg, apr, f0, header) == Rewalk(cfg, apr, Revert(f0), header);
      RewalkIgnoresCache(cfg, apr, Revert(c), Revert(f0), header);
    }
  }

  /**
   * Repeating a request gives the same answer, whatever the cache did with the
   * first one, as long as the first left the connection usable.
   */
  lemma {:induction false} RepeatIsStable(cfg: Config, apr: Apr, c: Conn, header: Option<string>)
    requires Usable(c, header) && Coherent(cfg, apr, c)
    requires Usable(Handle(cfg, apr, c, header).conn, header)
    ensures var r := Handle(cfg, apr, c, header);
      var r2 := Handle(cfg, apr, r.conn, header);
      r2.status == r.status && r2.conn.client == r.conn.client && r2.note == r.note
  {
    var r := Handle(cfg, apr, c, header);
    CacheIsTransparent(cfg, apr, c, header);
    CacheIsTransparent(cfg, apr, r.conn, header);
  }

  /**
   * The peer lines 477-485 store as written: the text of the current peer, but
   * the address last held in `temp_sa`, which is the refused one when an
   * external proxy vouched for a reserved address. After a failed lookup
   * `temp_sa` holds whatever apr_sockaddr_info_get left in it; the APR library
   * sets it to NULL on failure, so line 483 would copy from a null pointer.
   * APR is not part of this model, and None stands for that undefined copy.
   */
  function StoredAsWritten(w: Walk): (p: Option<Peer>)
    ensures w.stop.Reserved? ==> p == Some(Peer(w.stop.rejected, w.peer.ip))
    ensures !w.stop.Reserved? && !w.stop.Unparsable? ==> p == Some(w.peer)
  {
    match w.stop
    case Reserved(a) => Some(Peer(a, w.peer.ip))
    case Unparsable => None
    case _ => Some(w.peer)
  }

  /** Rewalk as the source writes it: the stored peer comes from `temp_sa`. */
  function RewalkAsWritten(cfg: Config, apr: Apr, c0: Conn, header: Option<string>): (r: Option<Reply>)
    requires Usable(c0, header)
    ensures r.Some? ==> Origin(r.value.conn) == Origin(c0)
    ensures header.None? ==>
      r.Some? && r.value.conn == c0 && r.value.note.None? && (r.value.status == Http403 <==> cfg.denyAll)
    ensures header.Some? ==> var o := Resolve(cfg, apr, c0.client, header.value);
      && (r.None? <==> o.Resolved? && |o.walk.trail| > 0 && o.walk.stop.Unparsable?)
      && (r.Some? ==> (r.value.status == Http403 <==> o.Forbidden?))
      && (o.Resolved? && |o.walk.trail| == 0 ==> r == Some(Reply(Ok, c0, None)))
      && (o.Resolved? && |o.walk.trail| > 0 && r.Some? ==>
            && r.value.conn.client == StoredAsWritten(o.walk).value
            && r.value.note == IpList(o.walk.proxies))
  {
    match header
    case None => Some(Reply(if cfg.denyAll then Http403 else Ok, c0, None))
    case Some(h) =>
      var o := Resolve(cfg, apr, c0.client, h);
      match o
      case Forbidden(at, _) => Some(Finish(cfg, c0, h, o, at))
      case Resolved(w) =>
        if |w.trail| == 0 then Some(Finish(cfg, c0, h, o, w.peer))
        else
          match StoredAsWritten(w)
          case None => None
          case Some(p) => Some(Finish(cfg, c0, h, o, p))
  }

  /**
   * One request as the source writes it: a repeated header leaves the
   * connection exactly as it is (lines 271-276, 538), even when an earlier
   * request reverted it to the original peer.
   */
  function HandleAsWritten(cfg: Config, apr: Apr, c: Conn, header: Option<string>): (r: Option<Reply>)
    requires Usable(c, header)
    ensures IsDitto(c, header) ==> r == Some(Reply(Ok, c, c.cache.st.proxyIps))
    ensures r.Some? ==> Origin(r.value.conn) == Origin(c)
    ensures !IsDitto(c, header) && AwayFromDefects(cfg, apr, c, header) ==>
      r == Some(Handle(cfg, apr, c, header))
  {
    if IsDitto(c, header) then Some(Reply(Ok, c, c.cache.st.proxyIps))
    else RewalkAsWritten(cfg, apr, Revert(c), header)
  }

  /**
   * Away from the stored-address defects the source and the corrected model
   * agree: the walk of a present header did not end, after a promotion, on a
   * reserved claim or on a token that does not resolve.
   */
  predicate AwayFromDefects(cfg: Config, apr: Apr, c: Conn, header: Option<string>)
    requires Usable(c, header)
  {
    header.Some? ==>
      var o := Resolve(cfg, apr, Revert(c).client, header.value);
      o.Resolved? && |o.walk.trail| > 0 ==> !o.walk.stop.Reserved? && !o.walk.stop.Unparsable?
  }

  /**
   * As written, a walk that promotes and then meets an external proxy's claim
   * to a reserved address leaves the connection on that refused address: the
   * client address is one the classifier rejects and differs from the peer the
   * corrected walk ends at.
   */
  lemma {:induction false} ReservedStopStoresRejected(cfg: Config, apr: Apr, c: Conn, h: string)
    requires Usable(c, Some(h)) && !IsDitto(c, Some(h))
    requires var o := Resolve(cfg, apr, Revert(c).client, h);
      && o.Resolved? && |o.walk.trail| > 0 && o.walk.stop.Reserved?
      && o.walk.stop.rejected != o.walk.peer.addr
    ensures var o := Resolve(cfg, apr, Revert(c).client, h);
      var r := HandleAsWritten(cfg, apr, c, Some(h));
      && r.Some?
      && r.value.conn.client.addr == o.walk.stop.rejected
      && Rejected(r.value.conn.client.addr)
      && cfg.trust(o.walk.peer.addr) == Some(false)
      && Handle(cfg, apr, c, Some(h)).conn.client == o.walk.peer
      && r.value.conn.client != Handle(cfg, apr, c, Some(h)).conn.client
  {
    var o := Resolve(cfg, apr, Revert(c).client, h);
    assert StoredAsWritten(o.walk) == Some(Peer(o.walk.stop.rejected, o.walk.peer.ip));
  }

  /**
   * As written, a walk that promotes and then meets a token that does not
   * resolve copies the client address out of the failed lookup's result, which
   * the model leaves undefined: no reply. The corrected walk keeps the last
   * promoted peer and notes the hops it crossed.
   */
  lemma {:induction false} UnparsableStopFails(cfg: Config, apr: Apr, c: Conn, h: string)
    requires Usable(c, Some(h)) && !IsDitto(c, Some(h))
    requires var o := Resolve(cfg, apr, Revert(c).client, h);
      o.Resolved? && |o.walk.trail| > 0 && o.walk.stop.Unparsable?
    ensures var o := Resolve(cfg, apr, Revert(c).client, h);
      && HandleAsWritten(cfg, apr, c, Some(h)).None?
      && Handle(cfg, apr, c, Some(h)).status == Ok
      && Handle(cfg, apr, c, Some(h)).conn.client == o.walk.peer
      && Handle(cfg, apr, c, Some(h)).note == IpList(o.walk.proxies)
  {
  }

  /**
   * As written, a header that promoted, then a request without it (or with
   * another one), then the first header again, leaves the third request on the
   * physical peer while it is reported with the cached proxy list; the
   * corrected cache answers it as a fresh connection would.
   */
  lemma {:induction false} StaleDittoAfterRevert(cfg: Config, apr: Apr, phys: Peer, h: string)
    requires var o := Resolve(cfg, apr, phys, h);
      && o.Resolved? && |o.walk.trail| > 0 && o.walk.peer != phys
      && !o.walk.stop.Reserved? && !o.walk.stop.Unparsable?
    ensures var o := Resolve(cfg, apr, phys, h);
      var a1 := HandleAsWritten(cfg, apr, FreshConn(phys), Some(h));
      && a1.Some?
      && var a2 := HandleAsWritten(cfg, apr, a1.value.conn, None);
      && a2.Some? && Usable(a2.value.conn, Some(h))
      && var a3 := HandleAsWritten(cfg, apr, a2.value.conn, Some(h));
      && a3.Some?
      && a3.value.conn.client == phys
      && a3.value.note == IpList(o.walk.proxies)
      && Handle(cfg, apr, FreshConn(phys), Some(h)).conn.client == o.walk.peer
  {
    var o := Resolve(cfg, apr, phys, h);
    var st := ConnState(h, phys, o.walk.peer, IpList(o.walk.proxies), o.walk.remainder);
    FirstRequestCaches(cfg, apr, phys, h);
    var c2 := BareRequestReverts(cfg, apr, Conn(o.walk.peer, Cached(st)));
    assert IsDitto(c2, Some(h));
  }

  /** A first request whose walk promotes and ends cleanly caches its result, as written too. */
  lemma FirstRequestCaches(cfg: Config, apr: Apr, phys: Peer, h: string)
    requires var o := Resolve(cfg, apr, phys, h);
      && o.Resolved? && |o.walk.trail| > 0
      && !o.walk.stop.Reserved? && !o.walk.stop.Unparsable?
    ensures var o := Resolve(cfg, apr, phys, h);
      var st := ConnState(h, phys, o.walk.peer, IpList(o.walk.proxies), o.walk.remainder);
      var r := Reply(Ok, Conn(o.walk.peer, Cached(st)), IpList(o.walk.proxies));
      && Handle(cfg, apr, FreshConn(phys), Some(h)) == r
      && HandleAsWritten(cfg, apr, FreshConn(phys), Some(h)) == Some(r)
  {
    assert AwayFromDefects(cfg, apr, FreshConn(phys), Some(h));
  }

  /** A request without the header puts a cached connection back on its original peer and keeps the record. */
  lemma BareRequestReverts(cfg: Config, apr: Apr, c: Conn) returns (c2: Conn)
    requires c.cache.Cached?
    ensures c2 == c.(client := c.cache.st.orig)
    ensures HandleAsWritten(cfg, apr, c, None) == Some(Reply(if cfg.denyAll then Http403 else Ok, c2, None))
  {
    c2 := c.(client := c.cache.st.orig);
  }

  /** The corrected cache answers the same three requests with the walked peer each time a header is present. */
  lemma {:induction false} DittoAfterRevertCorrected(cfg: Config, apr: Apr, phys: Peer, h: string)
    requires Usable(Handle(cfg, apr, FreshConn(phys), Some(h)).conn, Some(h))
    ensures var r1 := Handle(cfg, apr, FreshConn(phys), Some(h));
      var r2 := Handle(cfg, apr, r1.conn, None);
      && Usable(r2.conn, Some(h))
      && var r3 := Handle(cfg, apr, r2.conn, Some(h));
      r3.conn.client == r1.conn.client && r3.status == r1.status && r3.note == r1.note
  {
    var c := FreshConn(phys);
    var r1 := Handle(cfg, apr, c, Some(h));
    var r2 := Handle(cfg, apr, r1.conn, None);
    CacheIsTransparent(cfg, apr, r2.conn, Some(h));
    CacheIsTransparent(cfg, apr, c, Some(h));
  }
}
