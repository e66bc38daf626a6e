/**
 * The trust-chain walk of incapsula_modify_connection (mod_incapsula.c:324-464):
 * starting from the connection's peer, while the current peer is a trusted proxy,
 * take the nearest remaining header field, resolve it and, if acceptable, make it
 * the new current peer.
 */
module ChainWalk {
  import opened Wrappers
  import opened Inet
  import opened TrustTable
  import opened Tokens

  /**
   * The server settings the walk reads: the trust decision for a peer's address
   * (None stops the walk, Some(internal) lets it go on) and DenyAllButIncapsula.
   * The walk needs nothing of the trusted-proxy table but that decision.
   */
  datatype Config = Config(trust: Addr -> Option<bool>, denyAll: bool)

  /** The settings of a server whose trusted-proxy table is `table` (lines 328-351). */
  function Configure(table: seq<Entry>, denyAll: bool): (cfg: Config)
    ensures cfg.denyAll == denyAll
    ensures forall a :: cfg.trust(a) == TrustOf(table, a)
  {
    Config((a: Addr) => TrustOf(table, a), denyAll)
  }

  /** Why a walk that was not refused came to an end. */
  datatype Stop =
    | Exhausted               // every field was consumed (the loop condition, line 324)
    | Untrusted               // the current peer matches no entry (line 349)
    | BlankToken              // the field is empty or spaces only (lines 369-375)
    | Unparsable              // the token does not resolve (lines 395-409)
    | Reserved(rejected: Addr) // an external hop vouches for a reserved address (lines 413-444)

  /** One promotion: who vouched, whether that proxy is internal, the token, and its address. */
  datatype Hop = Hop(from: Peer, internal: bool, token: string, to: Addr)

  /**
   * A finished walk: the resulting peer, the `", "`-joined proxy list as its
   * items, the unconsumed remainder of the header (NULL when all was consumed),
   * the promotions made, and why the walk stopped.
   */
  datatype Walk = Walk(peer: Peer, proxies: seq<string>, remainder: Option<string>,
                       trail: seq<Hop>, stop: Stop)

  /** The walk either answers 403 (line 347) or finishes. */
  datatype Outcome = Forbidden(at: Peer, hops: seq<Hop>) | Resolved(walk: Walk) {
    function Trail(): seq<Hop> {
      match this
      case Forbidden(_, hops) => hops
      case Resolved(w) => w.trail
    }
    function Current(): Peer {
      match this
      case Forbidden(at, _) => at
      case Resolved(w) => w.peer
    }
  }

  /** The peer an accepted address becomes: the address and its text (line 463). */
  function PeerOf(apr: Apr, a: Addr): Peer {
    Peer(a, apr.show(a))
  }

  /**
   * The remainder kept when a token is refused (lines 404-407, 439-442): the comma
   * is put back, and the field keeps its leading spaces but loses its trailing
   * ones; without a comma the remainder is the token itself.
   */
  function Putback(c: Cut): (s: string)
    ensures c.rest.Some? && ',' !in c.raw ==> Pop(s) == Cut(c.rest, TrimRight(c.raw))
  {
    match c.rest
    case None => Trim(c.raw)
    case Some(r) =>
      TrimRightShape(c.raw);
      var t := TrimRight(c.raw);
      if ',' in c.raw then r + "," + t
      else
        assert forall i :: 0 <= i < |t| ==> t[i] == c.raw[i];
        PopUnique(r + "," + t, r, t);
        r + "," + t
  }

  function Size(remote: Option<string>): nat {
    match remote
    case None => 0
    case Some(s) => |s| + 1
  }

  /**
   * The `while (remote)` loop. `remote` is what is left of the header (None for
   * NULL), `proxies` the proxy list so far and `trail` the promotions so far.
   */
  function WalkFrom(cfg: Config, apr: Apr, peer: Peer, remote: Option<string>,
                    proxies: seq<string>, trail: seq<Hop>): (r: Outcome)
    ensures trail <= r.Trail()
    ensures r.Forbidden? ==>
      cfg.denyAll && cfg.trust(r.at.addr).None?
    ensures r.Resolved? ==> StopReason(cfg, apr, r.walk)
    decreases Size(remote)
  {
    match remote
    case None => Resolved(Walk(peer, proxies, None, trail, Exhausted))
    case Some(s) =>
      match cfg.trust(peer.addr)
      case None =>
        if cfg.denyAll then Forbidden(peer, trail)
        else Resolved(Walk(peer, proxies, Some(s), trail, Untrusted))
      case Some(internal) =>
        var cut := Pop(s);
        var token := Trim(cut.raw);
        if token == [] then
          var rem := if cut.rest.Some? then cut.rest.value + "," + cut.raw else "";
          Resolved(Walk(peer, proxies, Some(rem), trail, BlankToken))
        else
          match Parse(apr, token)
          case None => Resolved(Walk(peer, proxies, Some(Putback(cut)), trail, Unparsable))
          case Some(a) =>
            if !internal && Rejected(a) then
              Resolved(Walk(peer, proxies, Some(Putback(cut)), trail, Reserved(a)))
            else
              var proxies' := if internal then proxies else proxies + [peer.ip];
              WalkFrom(cfg, apr, PeerOf(apr, a), cut.rest, proxies', trail + [Hop(peer, internal, token, a)])
  }

  /** One promotion of the walk, unfolded. */
  lemma AcceptStep(cfg: Config, apr: Apr, peer: Peer, s: string, proxies: seq<string>,
                   trail: seq<Hop>, internal: bool, a: Addr)
    requires cfg.trust(peer.addr) == Some(internal)
    requires Trim(Pop(s).raw) != [] && Parse(apr, Trim(Pop(s).raw)) == Some(a)
    requires internal || !Rejected(a)
    ensures WalkFrom(cfg, apr, peer, Some(s), proxies, trail)
         == WalkFrom(cfg, apr, PeerOf(apr, a), Pop(s).rest,
                     if internal then proxies else proxies + [peer.ip],
                     trail + [Hop(peer, internal, Trim(Pop(s).raw), a)])
  {
  }

  /** The peer after a sequence of promotions from `start`. */
  function EndPeer(apr: Apr, start: Peer, hops: seq<Hop>): Peer {
    if |hops| == 0 then start else PeerOf(apr, hops[|hops| - 1].to)
  }

  /**
   * A promotion the module may make: the vouching peer is trusted with this
   * internal flag, the token resolves to the address, and an external proxy
   * never vouches for a reserved address.
   */
  predicate SoundHop(cfg: Config, apr: Apr, h: Hop) {
    && cfg.trust(h.from.addr) == Some(h.internal)
    && h.token != []
    && Parse(apr, h.token) == Some(h.to)
    && (!h.internal ==> !Rejected(h.to))
  }

  /**
   * Promotions that follow one another from `start`, each one sound: the first
   * starts at `start`, and each later one at the peer the previous one promoted.
   */
  predicate Chain(cfg: Config, apr: Apr, start: Peer, hops: seq<Hop>) {
    && (forall i :: 0 <= i < |hops| ==> SoundHop(cfg, apr, hops[i]))
    && (|hops| > 0 ==> hops[0].from == start)
    && (forall i :: 0 < i < |hops| ==> hops[i].from == PeerOf(apr, hops[i - 1].to))
  }

  /** The proxy list a sequence of promotions yields: every external vouching peer. */
  function ExternalIps(hops: seq<Hop>): (ips: seq<string>)
    ensures |ips| <= |hops|
    decreases |hops|
  {
    if |hops| == 0 then []
    else
      var last := hops[|hops| - 1];
      ExternalIps(hops[..|hops| - 1]) + (if last.internal then [] else [last.from.ip])
  }

  /** A sound promotion from the end of a chain extends it. */
  lemma {:induction false} ChainExtend(cfg: Config, apr: Apr, start: Peer, trail: seq<Hop>, h: Hop)
    requires Chain(cfg, apr, start, trail)
    requires h.from == EndPeer(apr, start, trail) && SoundHop(cfg, apr, h)
    ensures Chain(cfg, apr, start, trail + [h])
    ensures EndPeer(apr, start, trail + [h]) == PeerOf(apr, h.to)
    ensures ExternalIps(trail + [h]) == ExternalIps(trail) + (if h.internal then [] else [h.from.ip])
  {
    var t := trail + [h];
    assert t[..|t| - 1] == trail;
    assert forall i :: 0 <= i < |trail| ==> t[i] == trail[i];
  }

  /**
   * An outcome reached from `start` by sound promotions only: its trail is a chain
   * from `start`, its peer is where that chain ends, and its proxy list is the
   * chain's external vouching peers.
   */
  predicate ChainOutcome(cfg: Config, apr: Apr, start: Peer, r: Outcome) {
    && Chain(cfg, apr, start, r.Trail())
    && r.Current() == EndPeer(apr, start, r.Trail())
    && (r.Resolved? ==> r.walk.proxies == ExternalIps(r.walk.trail))
  }

  /** Every walk extends a sound chain by sound promotions only, and keeps the proxy list in step. */
  lemma {:induction false} WalkKeepsChain(cfg: Config, apr: Apr, start: Peer, peer: Peer,
                                          remote: Option<string>, proxies: seq<string>, trail: seq<Hop>)
    requires Chain(cfg, apr, start, trail)
    requires peer == EndPeer(apr, start, trail)
    requires proxies == ExternalIps(trail)
    ensures ChainOutcome(cfg, apr, start, WalkFrom(cfg, apr, peer, remote, proxies, trail))
    decreases Size(remote)
  {
    match remote
    case None =>
    case Some(s) =>
      match cfg.trust(peer.addr)
      case None =>
      case Some(internal) =>
        var cut := Pop(s);
        var token := Trim(cut.raw);
        if token != [] {
          match Parse(apr, token)
          case None =>
          case Some(a) =>
            if internal || !Rejected(a) {
              var h := Hop(peer, internal, token, a);
              var trail' := trail + [h];
              ChainExtend(cfg, apr, start, trail, h);
              var proxies' := if internal then proxies else proxies + [peer.ip];
              AcceptStep(cfg, apr, peer, s, proxies, trail, internal, a);
              WalkKeepsChain(cfg, apr, start, PeerOf(apr, a), cut.rest, proxies', trail');
            }
        }
  }

  /**
   * The remainder left when the last of the fields `fs` is refused: the fields
   * before it, a comma, and the field without its trailing spaces; the lone
   * token when there is only one field.
   */
  function Refused(fs: seq<string>): string
    requires |fs| >= 1
  {
    var n := |fs|;
    if n > 1 then JoinFields(fs[..n - 1]) + "," + TrimRight(fs[n - 1])
    else Trim(fs[0])
  }

  /**
   * The same walk told over the header's fields, read left to right by
   * `Fields`, rather than over the string cut at its last comma: each step
   * looks at the last remaining field.
   */
  function WalkFields(cfg: Config, apr: Apr, peer: Peer, fs: seq<string>,
                      proxies: seq<string>, trail: seq<Hop>): (r: Outcome)
    requires |fs| >= 1
    ensures trail <= r.Trail() && |r.Trail()| <= |trail| + |fs|
    ensures r.Resolved? ==> (r.walk.stop == Exhausted <==> |r.walk.trail| == |trail| + |fs|)
    ensures r.Resolved? && r.walk.stop != Exhausted ==> r.walk.remainder.Some?
    decreases |fs|
  {
    var n := |fs|;
    var token := Trim(fs[n - 1]);
    match cfg.trust(peer.addr)
    case None =>
      if cfg.denyAll then Forbidden(peer, trail)
      else Resolved(Walk(peer, proxies, Some(JoinFields(fs)), trail, Untrusted))
    case Some(internal) =>
      if token == [] then
        Resolved(Walk(peer, proxies, Some(if n > 1 then JoinFields(fs) else ""), trail, BlankToken))
      else
        match Parse(apr, token)
        case None => Resolved(Walk(peer, proxies, Some(Refused(fs)), trail, Unparsable))
        case Some(a) =>
          if !internal && Rejected(a) then
            Resolved(Walk(peer, proxies, Some(Refused(fs)), trail, Reserved(a)))
          else
            var proxies' := if internal then proxies else proxies + [peer.ip];
            var trail' := trail + [Hop(peer, internal, token, a)];
            if n == 1 then Resolved(Walk(PeerOf(apr, a), proxies', None, trail', Exhausted))
            else WalkFields(cfg, apr, PeerOf(apr, a), fs[..n - 1], proxies', trail')
  }

  /** The remainder after a refused token is the refused field's remainder. */
  lemma {:induction false} PutbackIsRefused(s: string)
    ensures Putback(Pop(s)) == Refused(Fields(s))
  {
    var cut := Pop(s);
    PopIsLastField(s);
    var fs := Fields(s);
    match cut.rest
    case None =>
    case Some(rest) =>
      FieldsRoundTrip(rest);
      assert fs[..|fs| - 1] == Fields(rest);
  }

  /** The remainder after a blank field is the whole remaining header, or empty. */
  lemma {:induction false} BlankKeepsAll(s: string)
    ensures var cut := Pop(s); var fs := Fields(s);
      (if cut.rest.Some? then cut.rest.value + "," + cut.raw else "")
      == (if |fs| > 1 then JoinFields(fs) else "")
  {
    PopIsLastField(s);
    FieldsRoundTrip(s);
  }

  /**
   * Cutting the header at its last comma, step after step, is the same walk as
   * taking its fields from the right: the tokenizer loses and invents nothing.
   */
  lemma {:induction false} WalkIsWalkFields(cfg: Config, apr: Apr, peer: Peer, s: string,
                                            proxies: seq<string>, trail: seq<Hop>)
    ensures WalkFrom(cfg, apr, peer, Some(s), proxies, trail)
         == WalkFields(cfg, apr, peer, Fields(s), proxies, trail)
    decreases |s|
  {
    var fs := Fields(s);
    var cut := Pop(s);
    PutbackIsRefused(s);
    PopIsLastField(s);
    match cfg.trust(peer.addr)
    case None =>
      FieldsRoundTrip(s);
    case Some(internal) =>
      var token := Trim(cut.raw);
      if token == [] {
        BlankKeepsAll(s);
      } else if Parse(apr, token).Some? {
        match cut.rest
        case None =>
        case Some(rest) =>
          var a := Parse(apr, token).value;
          var proxies' := if internal then proxies else proxies + [peer.ip];
          WalkIsWalkFields(cfg, apr, PeerOf(apr, a), rest, proxies', trail + [Hop(peer, internal, token, a)]);
          assert fs[..|fs| - 1] == Fields(rest);
      }
  }

  /** The promotions from index `t` on used the fields `fs` from the right, trimmed. */
  predicate TokensFromRight(all: seq<Hop>, t: nat, fs: seq<string>)
    requires t <= |all| <= t + |fs|
  {
    forall i :: t <= i < |all| ==> all[i].token == Trim(fs[|fs| - 1 - (i - t)])
  }

  /**
   * One promotion that used the last field, followed by promotions that used the
   * other fields from the right, used all of them from the right.
   */
  lemma {:induction false} TokensShift(all: seq<Hop>, trail: seq<Hop>, h: Hop, fs: seq<string>)
    requires |fs| >= 2
    requires trail + [h] <= all && |all| <= |trail| + |fs|
    requires h.token == Trim(fs[|fs| - 1])
    requires TokensFromRight(all, |trail| + 1, fs[..|fs| - 1])
    ensures TokensFromRight(all, |trail|, fs)
  {
    var t := |trail|;
    var fs' := fs[..|fs| - 1];
    forall i | t <= i < |all| ensures all[i].token == Trim(fs[|fs| - 1 - (i - t)]) {
      if i == t {
        assert all[t] == (trail + [h])[t] == h;
      } else {
        assert all[i].token == Trim(fs'[|fs'| - 1 - (i - (t + 1))]);
        assert fs'[|fs'| - 1 - (i - (t + 1))] == fs[|fs| - 1 - (i - t)];
      }
    }
  }

  /** Each promotion consumes one field: the i-th promotion used the i-th field from the right, trimmed. */
  lemma {:induction false} WalkFieldsConsumes(cfg: Config, apr: Apr, peer: Peer, fs: seq<string>,
                                              proxies: seq<string>, trail: seq<Hop>)
    requires |fs| >= 1
    ensures var r := WalkFields(cfg, apr, peer, fs, proxies, trail);
      TokensFromRight(r.Trail(), |trail|, fs)
    decreases |fs|
  {
    var n := |fs|;
    var r := WalkFields(cfg, apr, peer, fs, proxies, trail);
    match cfg.trust(peer.addr)
    case None =>
    case Some(internal) =>
      var token := Trim(fs[n - 1]);
      if token != [] && Parse(apr, token).Some? {
        var a := Parse(apr, token).value;
        if internal || !Rejected(a) {
          var proxies' := if internal then proxies else proxies + [peer.ip];
          var h := Hop(peer, internal, token, a);
          var trail' := trail + [h];
          if n > 1 {
            var fs' := fs[..n - 1];
            WalkFieldsConsumes(cfg, apr, PeerOf(apr, a), fs', proxies', trail');
            assert r == WalkFields(cfg, apr, PeerOf(apr, a), fs', proxies', trail');
            TokensShift(r.Trail(), trail, h, fs);
          }
        }
      }
  }

  /** Why the walk stopped, in terms of the peer it stopped at. */
  predicate StopReason(cfg: Config, apr: Apr, w: Walk) {
    match w.stop
    case Exhausted => w.remainder.None?
    case Untrusted => !cfg.denyAll && cfg.trust(w.peer.addr).None?
    case BlankToken => cfg.trust(w.peer.addr).Some?
    case Unparsable => cfg.trust(w.peer.addr).Some?
    case Reserved(a) => cfg.trust(w.peer.addr) == Some(false) && Rejected(a)
  }

  /**
   * DenyAllButIncapsula changes exactly one thing: every walk that would stop at
   * an untrusted peer, on any iteration and not only the first, answers 403
   * instead.
   */
  function Strict(o: Outcome): Outcome {
    match o
    case Resolved(w) => if w.stop == Untrusted then Forbidden(w.peer, w.trail) else o
    case Forbidden(_, _) => o
  }

  lemma {:induction false} DenyAllRefusesUntrustedStops(cfg: Config, apr: Apr, peer: Peer,
                                                         remote: Option<string>,
                                                         proxies: seq<string>, trail: seq<Hop>)
    ensures WalkFrom(cfg.(denyAll := true), apr, peer, remote, proxies, trail)
         == Strict(WalkFrom(cfg.(denyAll := false), apr, peer, remote, proxies, trail))
    decreases Size(remote)
  {
    match remote
    case None =>
    case Some(s) =>
      match cfg.trust(peer.addr)
      case None =>
      case Some(internal) =>
        var cut := Pop(s);
        var token := Trim(cut.raw);
        if token != [] {
          match Parse(apr, token)
          case None =>
          case Some(a) =>
            if internal || !Rejected(a) {
              var proxies' := if internal then proxies else proxies + [peer.ip];
              DenyAllRefusesUntrustedStops(cfg, apr, PeerOf(apr, a), cut.rest, proxies',
                                           trail + [Hop(peer, internal, token, a)]);
            }
        }
  }

  /**
   * One resolution pass over a present header, from the connection's current
   * peer (lines 302-464).
   */
  function Resolve(cfg: Config, apr: Apr, physical: Peer, header: string): (r: Outcome)
    ensures Chain(cfg, apr, physical, r.Trail())
    ensures r.Current() == EndPeer(apr, physical, r.Trail())
    ensures r.Resolved? ==> r.walk.proxies == ExternalIps(r.walk.trail)
    ensures r.Resolved? ==> |r.walk.proxies| <= |r.walk.trail|
    ensures r == WalkFields(cfg, apr, physical, Fields(header), [], [])
    ensures |r.Trail()| <= |Fields(header)|
    ensures TokensFromRight(r.Trail(), 0, Fields(header))
    ensures r.Resolved? ==> (r.walk.stop == Exhausted <==> |r.walk.trail| == |Fields(header)|)
    ensures r.Resolved? ==> StopReason(cfg, apr, r.walk)
    ensures r.Forbidden? ==>
      cfg.denyAll && cfg.trust(r.at.addr).None?
    ensures cfg.denyAll && cfg.trust(physical.addr).None? ==> r == Forbidden(physical, [])
    ensures !cfg.denyAll ==> r.Resolved?
  {
    WalkKeepsChain(cfg, apr, physical, physical, Some(header), [], []);
    WalkIsWalkFields(cfg, apr, physical, header, [], []);
    WalkFieldsConsumes(cfg, apr, physical, Fields(header), [], []);
    WalkFrom(cfg, apr, physical, Some(header), [], [])
  }
}
