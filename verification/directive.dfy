/**
 * The trusted-proxy directive (mod_incapsula.c:154-167, 193-246): each argument
 * is an address or hostname with an optional `/mask`, turned into table entries
 * that are appended to the trusted-proxy table.
 */
module Directive {
  import opened Wrappers
  import opened Inet
  import opened TrustTable

  predicate IsDigit(c: char) {
    '0' <= c <= '9'
  }

  /** The IPv4 scan of looks_like_ip (lines 164-166): only digits and dots up to the end. */
  function ScanDottedDigits(s: string): (b: bool)
    ensures b <==> forall i :: 0 <= i < |s| ==> s[i] == '.' || IsDigit(s[i])
    decreases |s|
  {
    if |s| == 0 then true
    else if s[0] == '.' || IsDigit(s[0]) then
      assert forall i :: 1 <= i < |s| ==> s[i] == s[1..][i - 1];
      ScanDottedDigits(s[1..])
    else false
  }

  /**
   * looks_like_ip (lines 156-167): any string with a colon is taken for an IPv6
   * address; otherwise the string must consist of digits and dots only, so the
   * empty string passes too.
   */
  function LooksLikeIp(s: string): (b: bool)
    ensures ':' in s ==> b
    ensures ':' !in s ==> (b <==> forall i :: 0 <= i < |s| ==> s[i] == '.' || IsDigit(s[i]))
    ensures s == [] ==> b
  {
    if ':' in s then true else ScanDottedDigits(s)
  }

  /** Split a directive argument at its first `/` (lines 200-203). */
  function SplitMask(arg: string): (p: (string, Option<string>))
    ensures p.1.None? ==> p.0 == arg && '/' !in arg
    ensures p.1.Some? ==> arg == p.0 + "/" + p.1.value && '/' !in p.0
    decreases |arg|
  {
    if |arg| == 0 then ("", None)
    else if arg[0] == '/' then ("", Some(arg[1..]))
    else
      var (ip, mask) := SplitMask(arg[1..]);
      assert arg == [arg[0]] + arg[1..];
      ([arg[0]] + ip, mask)
  }

  datatype DirectiveError =
    | MaskOnHostname(arg: string)   // a `/mask` after a hostname (lines 218-222)
    | BadProxy(arg: string)         // APR refused the address or hostname (lines 238-243)

  /**
   * One table entry per resolved address of a hostname (lines 224-235), each a
   * single-host subnet made from the address in text form; None as soon as one
   * of them is refused.
   */
  function HostEntries(addrs: seq<Addr>, internal: bool, apr: Apr): (r: Option<seq<Entry>>)
    ensures r.Some? <==> forall i :: 0 <= i < |addrs| ==> apr.subnet(apr.show(addrs[i]), None).Some?
    ensures r.Some? ==> |r.value| == |addrs|
    ensures r.Some? ==> forall i :: 0 <= i < |addrs| ==>
      r.value[i] == Entry(apr.subnet(apr.show(addrs[i]), None).value, internal)
    decreases |addrs|
  {
    if |addrs| == 0 then Some([])
    else
      match apr.subnet(apr.show(addrs[0]), None)
      case None => None
      case Some(sn) =>
        assert forall i :: 1 <= i < |addrs| ==> addrs[i] == addrs[1..][i - 1];
        match HostEntries(addrs[1..], internal, apr)
        case None => None
        case Some(es) => Some([Entry(sn, internal)] + es)
  }

  /** The entries one directive argument contributes (lines 200-245). */
  function ProxyEntries(arg: string, internal: bool, apr: Apr): (r: Result<seq<Entry>, DirectiveError>)
    ensures r.Success? ==> |r.value| >= 1
    ensures r.Success? ==> forall i :: 0 <= i < |r.value| ==> r.value[i].internal == internal
    ensures r.Failure? && r.error.MaskOnHostname? <==>
      !LooksLikeIp(SplitMask(arg).0) && SplitMask(arg).1.Some?
    ensures LooksLikeIp(SplitMask(arg).0) ==>
      (r.Success? <==> apr.subnet(SplitMask(arg).0, SplitMask(arg).1).Some?)
    ensures LooksLikeIp(SplitMask(arg).0) && r.Success? ==>
      r.value == [Entry(apr.subnet(SplitMask(arg).0, SplitMask(arg).1).value, internal)]
    ensures !LooksLikeIp(SplitMask(arg).0) && SplitMask(arg).1.None? ==>
      var addrs := apr.lookup(SplitMask(arg).0);
      && (r.Success? <==> |addrs| > 0 && HostEntries(addrs, internal, apr).Some?)
      && (r.Success? ==> r.value == HostEntries(addrs, internal, apr).value)
  {
    var (ip, mask) := SplitMask(arg);
    if LooksLikeIp(ip) then
      match apr.subnet(ip, mask)
      case None => Failure(BadProxy(arg))
      case Some(sn) => Success([Entry(sn, internal)])
    else if mask.Some? then
      Failure(MaskOnHostname(arg))
    else
      var addrs := apr.lookup(ip);
      if |addrs| == 0 then Failure(BadProxy(arg))
      else
        match HostEntries(addrs, internal, apr)
        case None => Failure(BadProxy(arg))
        case Some(es) => Success(es)
  }

  /**
   * proxies_set: the argument's entries go after the entries already in the
   * table (lines 205-207), which keep their place.
   */
  function AddTrustedProxy(table: seq<Entry>, arg: string, internal: bool, apr: Apr)
    : (r: Result<seq<Entry>, DirectiveError>)
    ensures r.Success? ==> |r.value| > |table| && r.value[..|table|] == table
    ensures r.Failure? <==> ProxyEntries(arg, internal, apr).Failure?
    ensures r.Success? ==> r.value[|table|..] == ProxyEntries(arg, internal, apr).value
  {
    match ProxyEntries(arg, internal, apr)
    case Failure(e) => Failure(e)
    case Success(es) => Success(table + es)
  }

  /**
   * An address some existing entry already matches keeps that entry's flag after
   * any number of further directives: a later directive cannot re-flag an address
   * inside the built-in ranges.
   */
  lemma AddedProxyNeverOverrides(table: seq<Entry>, arg: string, internal: bool, apr: Apr, a: Addr)
    requires Lookup(table, a).Some?
    requires AddTrustedProxy(table, arg, internal, apr).Success?
    ensures Lookup(AddTrustedProxy(table, arg, internal, apr).value, a) == Lookup(table, a)
  {
    var es := ProxyEntries(arg, internal, apr).value;
    LookupAppendAfterMatch(table, es, a);
  }
}
