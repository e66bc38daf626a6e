/**
 * The trusted-proxy table (mod_incapsula.c:58-63, 328-351): an ordered list of
 * subnets, each flagged internal or external, searched first match first.
 */
module TrustTable {
  import opened Wrappers
  import opened Inet

  /** One trusted proxy entry: the subnet and whether it is an internal proxy. */
  datatype Entry = Entry(subnet: Subnet, internal: bool)

  /** Index of the first entry whose subnet contains `a` (the loop at lines 332-344). */
  function FirstMatch(table: seq<Entry>, a: Addr): (r: Option<nat>)
    ensures r.Some? ==> r.value < |table|
    decreases |table|
  {
    if |table| == 0 then None
    else if Contains(table[0].subnet, a) then Some(0)
    else
      match FirstMatch(table[1..], a)
      case None => None
      case Some(k) => Some(k + 1)
  }

  /** FirstMatch finds the earliest matching entry, and None means no entry matches. */
  lemma {:induction false} FirstMatchIsFirst(table: seq<Entry>, a: Addr)
    ensures var r := FirstMatch(table, a);
      && (r.Some? ==> Contains(table[r.value].subnet, a))
      && (r.Some? ==> forall j :: 0 <= j < r.value ==> !Contains(table[j].subnet, a))
      && (r.None? <==> forall j :: 0 <= j < |table| ==> !Contains(table[j].subnet, a))
    decreases |table|
  {
    if |table| > 0 && !Contains(table[0].subnet, a) {
      FirstMatchIsFirst(table[1..], a);
      assert forall j :: 1 <= j < |table| ==> table[j] == table[1..][j - 1];
    }
  }

  /** The internal flag of the first matching entry, or None when no entry matches. */
  function Lookup(table: seq<Entry>, a: Addr): (r: Option<bool>)
    ensures r.None? <==> forall j :: 0 <= j < |table| ==> !Contains(table[j].subnet, a)
    ensures r.Some? ==> exists k :: (0 <= k < |table| && Contains(table[k].subnet, a)
      && r.value == table[k].internal
      && forall j :: 0 <= j < k ==> !Contains(table[j].subnet, a))
  {
    FirstMatchIsFirst(table, a);
    match FirstMatch(table, a)
    case None => None
    case Some(k) => Some(table[k].internal)
  }

  /**
   * What one trust check at the top of the walk decides (lines 328-351): None
   * stops the walk; Some(internal) lets it go on, with the hop internal or not.
   * An empty table never stops it: the `i &&` guard at line 345 is false when
   * there are no entries, and `internal` keeps its initial NULL, so every hop
   * counts as external.
   */
  function TrustOf(table: seq<Entry>, a: Addr): (r: Option<bool>)
    ensures |table| == 0 ==> r == Some(false)
    ensures |table| > 0 ==> r == Lookup(table, a)
  {
    if |table| == 0 then Some(false) else Lookup(table, a)
  }

  /** The first match of a mapped address is that of the IPv4 address it carries. */
  lemma {:induction false} FirstMatchMapped(table: seq<Entry>, a: Addr)
    requires V4Mapped(a)
    ensures FirstMatch(table, a) == FirstMatch(table, Unmap(a))
    decreases |table|
  {
    if |table| > 0 {
      ContainsFamilies(table[0].subnet, a);
      FirstMatchMapped(table[1..], a);
    }
  }

  /**
   * A peer connecting as an IPv4-mapped IPv6 address is trusted exactly as the
   * IPv4 address it carries, with the same flag.
   */
  lemma {:induction false} MappedTrustedAsV4(table: seq<Entry>, a: Addr)
    requires V4Mapped(a)
    ensures TrustOf(table, a) == TrustOf(table, Unmap(a))
  {
    FirstMatchMapped(table, a);
  }

  /** Lookup answers with the flag of the earliest matching entry; later matches are ignored. */
  lemma {:induction false} LookupIsFirstMatch(table: seq<Entry>, a: Addr, k: nat)
    requires k < |table| && Contains(table[k].subnet, a)
    requires forall j :: 0 <= j < k ==> !Contains(table[j].subnet, a)
    ensures Lookup(table, a) == Some(table[k].internal)
  {
    FirstMatchIsFirst(table, a);
  }

  /** Entries appended after a matching entry never change the answer. */
  lemma {:induction false} LookupAppendAfterMatch(table: seq<Entry>, more: seq<Entry>, a: Addr)
    requires Lookup(table, a).Some?
    ensures Lookup(table + more, a) == Lookup(table, a)
  {
    FirstMatchIsFirst(table, a);
    var k := FirstMatch(table, a).value;
    var all := table + more;
    assert all[k] == table[k];
    assert forall j :: 0 <= j < k ==> all[j] == table[j];
    LookupIsFirstMatch(all, a, k);
  }

  /** When nothing in the table matches, the appended entries alone decide. */
  lemma {:induction false} LookupAppendAfterMiss(table: seq<Entry>, more: seq<Entry>, a: Addr)
    requires Lookup(table, a).None?
    ensures Lookup(table + more, a) == Lookup(more, a)
  {
    var all := table + more;
    FirstMatchIsFirst(more, a);
    var bound := match FirstMatch(more, a) case None => |all| case Some(k) => |table| + k;
    forall j | 0 <= j < bound ensures !Contains(all[j].subnet, a) {
      if j < |table| { assert all[j] == table[j]; } else { assert all[j] == more[j - |table|]; }
    }
    match FirstMatch(more, a)
    case None => FirstMatchIsFirst(all, a);
    case Some(k) => LookupIsFirstMatch(all, a, |table| + k);
  }
}
