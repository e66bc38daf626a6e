# mod_incapsula in Dafny

mod_incapsula is an Apache httpd module. It replaces the connection's client
address with the visitor address named in a request header, `Incap-Client-IP` by
default. It does this only when the peer that sent the header is a trusted proxy:
one of Incapsula's own ranges, or a proxy added with the trusted-proxy
directives. This project models the core of `mod_incapsula.c` and proves
properties of that model. The core is:

- `looks_like_ip`;
- the split and reject rules of the trusted-proxy directive (`proxies_set`);
- the header walk of `incapsula_modify_connection`: the trust check, the
  tokenizer, the classifier that refuses reserved addresses, and the promotion
  of a token to be the new client;
- the per-connection cache that lets a repeated header reuse an earlier result.

Every trusted-proxy entry the module can hold is external. The directive is
registered with no command data (line 560), and the module has no per-directory
configuration (line 578), so the `internal` argument `proxies_set` stores is
always NULL. The built-in entries are pushed zeroed. The model keeps an
`internal` flag on entries, and as a parameter of the directive functions, as
a generalisation. With the flag false everywhere it is the source, and the
scenarios use it that way. The walk's handling of internal hops (no entry in
the proxy list) is modelled but unreachable in the source.

The modules follow the program's structure:

- `Wrappers`: `Option` and `Result`.
- `Inet`: addresses, CIDR subnets and their containment, and the reserved-address
  classifier. The classifier is written with byte ranges and proved equal to the
  source's bit masks. The calls into APR (`apr_sockaddr_info_get`, `apr_sockaddr_ip_get`,
  `apr_ipsubnet_create`) are parameters: the three function fields of the datatype
  `Apr`.
- `Tokens`: cutting a header at its last comma, trimming spaces, and the header's
  fields read left to right.
- `TrustTable`: the ordered trusted-proxy table with first-match lookup.
- `Directive`: `looks_like_ip` and the trusted-proxy directive.
- `ChainWalk`: the `while (remote)` walk. `Config` holds the two settings the
  walk reads: the trust decision the trusted-proxy table makes for a peer, and
  DenyAllButIncapsula. `WalkFrom` follows the C loop cut by
  cut. `WalkFields` is an independent reference told over the header's fields.
  `Resolve` is one pass over a present header.
- `ConnCache`: one request on a keep-alive connection. It covers the revert, the
  repeated-header shortcut, the 403 paths, and the record kept after a promotion.
  The as-written variants of the defects under "## Findings" are here too.
- `Scenarios`: the built-in Incapsula ranges, and concrete requests worked
  through them.

## Model

| member | source | states |
|---|---|---|
| Directive.LooksLikeIp | mod_incapsula.c:156-167 | a string containing `:` is always taken for an address; otherwise it looks like an IP exactly when every character is a digit or a dot, so the empty string passes |
| Directive.ScanDottedDigits | mod_incapsula.c:163-166 | the scan reaches the end of the string exactly when every character is a digit or a dot |
| Directive.SplitMask | mod_incapsula.c:200-203 | without a `/` the whole argument is the address; with one, the argument is address + `/` + mask and the address part contains no `/` (the split is at the first `/`) |
| Directive.HostEntries | mod_incapsula.c:224-235 | succeeds exactly when every resolved address gives a subnet; on success there is one host entry per address, in order, each carrying the directive's internal flag (always false in the source, as the introduction explains) |
| Directive.ProxyEntries | mod_incapsula.c:200-245 | a mask after a hostname is an error exactly when the address part does not look like an IP; an IP-like argument succeeds exactly when APR accepts it as a subnet, and gives that single entry; a hostname without a mask succeeds exactly when it resolves to at least one address and every address gives a subnet, and then gives exactly the host entries of those addresses in order; every entry carries the directive's flag (always false in the source), and success gives at least one |
| Directive.AddTrustedProxy | mod_incapsula.c:205-208 | it fails exactly when the argument is rejected; on success the old entries keep their order and place at the front, and what follows them is exactly the argument's entries |
| Directive.AddedProxyNeverOverrides | mod_incapsula.c:205-207 | an address an existing entry already matches keeps that entry's internal flag after the directive, because matching stops at the first entry |
| TrustTable.FirstMatch | mod_incapsula.c:332-344 | the index found is an index of the table |
| TrustTable.FirstMatchIsFirst | mod_incapsula.c:332-344 | the index found is that of an entry whose subnet contains the address, and no earlier entry contains it; None means that no entry contains it |
| TrustTable.Lookup | mod_incapsula.c:332-337 | None exactly when no entry's subnet contains the address; otherwise the flag of an entry that contains it and has no containing entry before it |
| TrustTable.TrustOf | mod_incapsula.c:328-351 | an empty table never stops the walk and treats every hop as external; a non-empty table is decided by the first-match lookup |
| TrustTable.LookupIsFirstMatch | mod_incapsula.c:332-337 | when entry k matches and no earlier one does, the lookup answers with entry k's flag |
| TrustTable.LookupAppendAfterMatch | mod_incapsula.c:332-337 | entries appended after a matching entry never change the answer |
| TrustTable.LookupAppendAfterMiss | mod_incapsula.c:332-344 | when no entry of the table matches, the appended entries alone decide |
| TrustTable.FirstMatchMapped | mod_incapsula.c:332-337 | for an IPv4-mapped peer, the first matching entry is the one the IPv4 address it carries would match |
| TrustTable.MappedTrustedAsV4 | mod_incapsula.c:328-351 | a peer connecting as an IPv4-mapped IPv6 address gets exactly the trust decision of the IPv4 address it carries, for any table |
| Inet.Parse | mod_incapsula.c:395-398 | a token parses exactly when the lookup yields at least one address, and then to the first of them |
| Inet.MaskByte | mod_incapsula.c:45-54 | the mask byte for `ones` prefix bits has bit k, counted from the top, set exactly when k < ones |
| Inet.Cidr | mod_incapsula.c:45-54 | the subnet built from a prefix length has mask bytes 0xFF for the whole bytes inside the prefix and 0 for those beyond it; in every byte, including the one the prefix ends in, bit k of byte i is set exactly when 8i + k is below the prefix length |
| Inet.Contains | mod_incapsula.c:334 | the stand-in for `apr_ipsubnet_test`, a predicate without a contract; `Inet.ContainsFamilies` and `Inet.Contains4` state it |
| Inet.ContainsFamilies | mod_incapsula.c:334 | an IPv4-mapped IPv6 address (`::ffff:a.b.c.d`) is matched exactly as the IPv4 address it carries, and never by an IPv6 subnet; any other address only by a subnet of its own family |
| Inet.Contains4 | mod_incapsula.c:334 | membership of an IPv4 address in a four-byte subnet holds exactly when each byte agrees with the network under the mask |
| Inet.ReservedBlock | mod_incapsula.c:421-425 | membership in each reserved IPv4 block is exactly the classifier's test on the first two bytes |
| Inet.Rejected | mod_incapsula.c:414-432 | the classifier itself, a predicate without a contract; what it decides is stated by `Inet.RejectedIsMaskedTest` and `Inet.RejectedIsReservedRange` |
| Inet.RejectedIsMaskedTest | mod_incapsula.c:414-432 | the classifier, written with byte ranges, agrees on every address with the source's mask tests: `b1 & 0xF0 == 16` for 172.16/12 and `b0 & 0xE0 != 0x20` for IPv6 |
| Inet.RejectedIsReservedRange | mod_incapsula.c:414-432 | the classifier rejects an address exactly when it is IPv4 inside 10/8, 127/8, 169.254/16, 172.16/12 or 192.168/16 (as CIDR membership), or IPv6 outside 2000::/3 |
| Tokens.LastComma | mod_incapsula.c:354 | None exactly when there is no comma; otherwise the index of a comma with none after it (`strrchr`) |
| Tokens.Pop | mod_incapsula.c:354-360 | the cut loses nothing (rest + `,` + raw is the input); the cut-off piece has no comma; there is no rest exactly when the input has no comma; the rest is strictly shorter |
| Tokens.PopUnique | mod_incapsula.c:354-360 | a string written as r + `,` + raw, with no comma in raw, is cut into exactly r and raw |
| Tokens.TrimLeft | mod_incapsula.c:362-363 | a field that does not start with a space is left as it is; its full shape is stated by `Tokens.TrimLeftShape` |
| Tokens.TrimRight | mod_incapsula.c:365-367 | a field that does not end with a space is left as it is; its full shape is stated by `Tokens.TrimRightShape` |
| Tokens.Trim | mod_incapsula.c:362-367 | a non-empty field with no space at either end is its own trimmed token; the full shape is stated by `Tokens.TrimShape` |
| Tokens.TrimShape | mod_incapsula.c:362-367 | the token is a slice of the field with only spaces before and after it, and it neither starts nor ends with a space |
| Tokens.TrimLeftShape | mod_incapsula.c:362-363 | the leading trim removes a run of spaces from the front and nothing else; the result does not start with a space |
| Tokens.TrimRightShape | mod_incapsula.c:365-367 | the trailing trim removes a run of spaces from the back and nothing else; the result does not end with a space |
| Tokens.TrimBlank | mod_incapsula.c:362-369 | a field trims to the empty token exactly when it is made of spaces only |
| Tokens.Fields | mod_incapsula.c:324-360 | the reference split, read left to right at each first comma (`Tokens.FirstComma`, a helper of this definition rather than of the loop): a header has at least one field, and no field contains a comma |
| Tokens.FieldsAppend | mod_incapsula.c:354-360 | appending `,b` to a header, where b has no comma, adds exactly the one field b at the end |
| Tokens.PopIsLastField | mod_incapsula.c:354-360 | the piece the tokenizer cuts off is the header's last field, and the rest holds the other fields |
| Tokens.FieldsRoundTrip | mod_incapsula.c:354-360 | joining the fields with commas gives the header back |
| ChainWalk.Configure | mod_incapsula.c:328-351 | the settings built from a table decide each peer as the table's trust decision does, and carry the DenyAllButIncapsula flag unchanged |
| ChainWalk.WalkFrom | mod_incapsula.c:324-464 | the walk only appends promotions; a 403 happens only under DenyAllButIncapsula, at a peer the trust decision refuses; a walk stops at an untrusted peer only without DenyAllButIncapsula; blank and unparsable stops happen at trusted peers; a reserved stop happens at an external proxy and names a rejected address; an exhausted walk leaves no remainder |
| ChainWalk.AcceptStep | mod_incapsula.c:413-463 | when the peer is trusted, the last field resolves, and the address is acceptable for that proxy, the walk continues from the resolved peer with the field consumed; an external proxy's text is added to the list and the hop recorded |
| ChainWalk.ChainExtend | mod_incapsula.c:413-463 | a sound promotion made from the peer a chain ends at extends the chain; the new end is the promoted peer, and the proxy list grows by the vouching peer's text exactly when that peer is external |
| ChainWalk.Putback | mod_incapsula.c:404-407 | a refused token is put back by restoring its comma (the same code follows a reserved address at lines 439-442): when a rest remains, cutting the restored header again gives back that rest and the refused field, less its trailing spaces |
| ChainWalk.WalkKeepsChain | mod_incapsula.c:324-464 | every walk extends a chain of sound promotions only: each vouching peer was trusted with the recorded flag, each token resolved to the promoted address, and no external proxy promoted a reserved address; the current peer is the last promoted one, and the proxy list is the external vouchers' texts in order |
| ChainWalk.WalkIsWalkFields | mod_incapsula.c:324-444 | the loop that cuts at the last comma and puts refused tokens back gives the same outcome as the reference walk over the fields, including the remainder it leaves |
| ChainWalk.WalkFields | mod_incapsula.c:324-444 | the reference walk over the fields only appends promotions, at most one per field; it is exhausted exactly when every field was promoted, and otherwise, unless refused, leaves a remainder |
| ChainWalk.WalkFieldsConsumes | mod_incapsula.c:354-463 | each promotion consumes one field from the right: the i-th promotion's token is the i-th field from the right, trimmed |
| ChainWalk.DenyAllRefusesUntrustedStops | mod_incapsula.c:345-351 | DenyAllButIncapsula changes exactly one thing: every walk that would stop at an untrusted peer, on any iteration, answers 403 instead |
| ChainWalk.Resolve | mod_incapsula.c:302-464 | one pass over a present header: a sound chain from the physical peer ending at the current peer; the proxy list is the external vouchers; it equals the reference walk; at most one promotion per field, taken from the right; it is exhausted exactly when every field was promoted; the stop reasons and the 403 conditions above hold; a physical peer the trust decision refuses gets 403 at once, with no promotion, under DenyAllButIncapsula; without it there is never a 403 |
| ConnCache.Join | mod_incapsula.c:455-459 | a single external hop's text is the list itself |
| ConnCache.JoinSplit | mod_incapsula.c:455-459 | the list of two or more texts is, at every split point, the list of those before it, `", "`, and the list of those after: the texts in order, separated by `", "` |
| ConnCache.IsDitto | mod_incapsula.c:272 | the repeated-header test, a predicate without a contract: a complete record whose header text equals this request's header; it is used by `Handle` and `HandleAsWritten` |
| ConnCache.IpList | mod_incapsula.c:454-460 | the proxy list is NULL exactly when no external hop was promoted |
| ConnCache.Revert | mod_incapsula.c:277-287 | every connection with a record, partial or complete, is reverted: the cache is kept and the original peer is put back as the client; a connection without a record is left alone |
| ConnCache.Finish | mod_incapsula.c:446-532 | a 403 exactly when the walk was forbidden, and then the client is the peer it stopped at, with no note; a walk with no promotion answers OK and writes nothing (lines 466-468); after a promotion the stored peer is the client, the note is the external hops' list, and the record holds the header, the original peer, the stored peer, the list and the remainder |
| ConnCache.Rewalk | mod_incapsula.c:294-300 | without a header the connection is untouched, no note is set, and the answer is 403 exactly under DenyAllButIncapsula; with a header, 403 exactly when the walk is forbidden, and then the client is the peer it stopped at with no note; a walk with no promotion answers OK and leaves the connection as it was, with no note; after a promotion the client is the walk's end peer and the note is the external hops' list; an untrusted physical peer gets 403 under DenyAllButIncapsula, and without it there is never a 403; the original peer is never lost; a new record stores the header it came from, makes the walk's end peer the client, and follows a sound chain of at least one promotion from the reverted peer |
| ConnCache.Handle | mod_incapsula.c:269-300 | a repeated header answers OK with the cached client and proxy list; another request without a header reverts the connection and answers as the header-less path does; any other request with a header walks from the original peer: 403 exactly when that walk is forbidden, OK on the reverted connection with no note when nothing is promoted, and otherwise the walk's end peer as client with the external hops' list as note; an untrusted original peer gets 403 under DenyAllButIncapsula, and without it there is never a 403; the original peer is kept; a complete record is never dropped; a record consistent with a fresh walk stays consistent |
| ConnCache.RewalkIgnoresCache | mod_incapsula.c:277-300 | after the revert, the status, client and proxy list of a request depend only on the reverted client, not on what the cache holds |
| ConnCache.DittoIsFresh | mod_incapsula.c:271-276 | on a consistent connection, a repeated header answers with the status, client and proxy list a fresh walk of that header gives |
| ConnCache.CacheIsTransparent | mod_incapsula.c:271-287 | on a consistent connection, a request gets the same status, client and proxy list as on a fresh connection from the original peer |
| ConnCache.RepeatIsStable | mod_incapsula.c:271-276 | sending the same request twice gives the same status, client and proxy list both times |
| ConnCache.DittoAfterRevertCorrected | mod_incapsula.c:271-287 | the header, then no header, then the header again: the third request gets the first one's client, status and proxy list |
| ConnCache.StoredAsWritten | mod_incapsula.c:483-485 | as written, after a reserved stop the stored address is the refused one, with the current peer's text; after an unparsable stop nothing defined is stored (None); otherwise it is the current peer |
| ConnCache.RewalkAsWritten | mod_incapsula.c:294-300 | as written: without a header the connection is untouched, no note is set, and the answer is 403 exactly under DenyAllButIncapsula; with a header there is no defined answer exactly when a promotion is followed by an unparsable token; otherwise 403 exactly when the walk is forbidden, a walk with no promotion answers OK and changes nothing, and after a promotion the client is the stored peer and the note the external hops' list; the original peer is never lost |
| ConnCache.HandleAsWritten | mod_incapsula.c:271-276 | as written, a repeated header leaves the connection exactly as it is; unless a promotion is followed by a reserved claim or an unparsable token, it answers as the corrected `Handle` does |
| ConnCache.ReservedStopStoresRejected | mod_incapsula.c:483-485 | as written, a walk that promotes and then meets an external proxy's reserved claim leaves the connection on the refused address; that address is rejected by the classifier, and differs from the peer the corrected model keeps |
| ConnCache.UnparsableStopFails | mod_incapsula.c:483-485 | as written, a walk that promotes and then meets a token that does not resolve has no defined answer; the corrected model answers OK with the last promoted peer and the external hops' list |
| ConnCache.FirstRequestCaches | mod_incapsula.c:294-300 | a first request whose walk promotes and does not end on a refused token gets the walked client and proxy list, and keeps a record of its header, original peer and result; as written it does the same |
| ConnCache.BareRequestReverts | mod_incapsula.c:277-300 | as written, a request without the header on a cached connection puts the original peer back as client, keeps the record, and answers as the header-less path does |
| ConnCache.StaleDittoAfterRevert | mod_incapsula.c:271-287 | as written, header h, then no header, then h again leaves the third request on the physical peer, reported with the cached proxy list; the corrected model puts the walked peer there |
| Scenarios.EdgeIsTrusted | mod_incapsula.c:45-54 | an Incapsula edge address lies in the built-in ranges, as an external proxy |
| Scenarios.MappedEdgeIsTrusted | mod_incapsula.c:328-337 | the edge seen as `::ffff:199.83.128.5` on a dual-stack listener is trusted as the edge is, as an external proxy |
| Scenarios.DefaultMasks | mod_incapsula.c:45-54 | the seven built-in entries are the seven ranges, in order, each with two full mask bytes and the partial third byte its prefix length gives |
| Scenarios.RangeEntryIsBlock4 | mod_incapsula.c:45-54 | an IPv4 address lies in the i-th built-in subnet exactly when it has the range's first two bytes and a third byte between the range's bounds |
| Scenarios.RangeEntryIsBlock | mod_incapsula.c:45-54 | any address lies in the i-th built-in subnet exactly when it is in the range: an IPv4 address by its own bytes, an IPv4-mapped IPv6 address by the IPv4 address it carries, and no other IPv6 address |
| Scenarios.DefaultTrust | mod_incapsula.c:45-54 | the built-in table trusts an address, as external, exactly when it lies in one of the seven ranges written as byte bounds (an IPv4-mapped address by the IPv4 address it carries), and matches nothing otherwise |
| Scenarios.OutsideDefaults | mod_incapsula.c:45-54 | any address outside all seven built-in ranges matches no built-in entry: an IPv4 address outside them, an IPv4-mapped address whose IPv4 address is outside them, or any other IPv6 address |
| Scenarios.SingleHopWalk | mod_incapsula.c:324-464 | the edge vouching for one visitor: one promotion, and the header is consumed |
| Scenarios.SingleHop | mod_incapsula.c:269-545 | the visitor becomes the client, the edge is the one proxy listed, and the note carries it |
| Scenarios.OutsiderRefused | mod_incapsula.c:345-347 | under DenyAllButIncapsula any peer outside every built-in range (an IPv4-mapped peer judged by the IPv4 address it carries) gets 403 on a fresh connection, with the header or without it, and its connection is unchanged |
| Scenarios.PrivateClaimWalk | mod_incapsula.c:413-444 | an edge's claim to 10.1.2.3 is refused at once and the token stays in the remainder |
| Scenarios.PrivateClaimRefused | mod_incapsula.c:413-468 | that claim leaves the connection on the edge, with no note |
| Scenarios.EdgeTrustedWithRelay | mod_incapsula.c:205-207 | an added relay entry does not change how an edge is trusted |
| Scenarios.RelayTrusted | mod_incapsula.c:205-212 | the relay matches only its own added entry, as an external proxy |
| Scenarios.RelayVouches | mod_incapsula.c:324-464 | the second step of a two-hop header: the relay vouches for the visitor, and the header is consumed |
| Scenarios.TwoHopsWalk | mod_incapsula.c:324-464 | a two-hop header is read right to left: the edge promotes the relay, the relay promotes the visitor |
| Scenarios.TwoHops | mod_incapsula.c:269-545 | the visitor becomes the client, and the note lists the edge then the relay, joined by `", "` |
| Scenarios.RelayClaimsPrivate | mod_incapsula.c:413-444 | an external relay's claim to 10.1.2.3 is refused, and the token stays in the remainder |
| Scenarios.SmuggledWalk | mod_incapsula.c:324-464 | for `10.1.2.3, 198.51.100.1` from the edge, the relay is promoted and then its claim to the private address is refused |
| Scenarios.SmuggledPrivateAsWritten | mod_incapsula.c:483-485 | as written, that request leaves the connection on the address 10.1.2.3; the corrected model leaves it on the relay |
| Scenarios.BogusCut | mod_incapsula.c:354-369 | `bogus, 198.51.100.1` is cut into the rest `bogus` and the field ` 198.51.100.1`, and `bogus` is its own trimmed last token |
| Scenarios.RelayCannotParse | mod_incapsula.c:395-408 | when the relay's token does not resolve, the walk stops there, unparsable, and keeps the token |
| Scenarios.UnparsableWalk | mod_incapsula.c:324-464 | for `bogus, 198.51.100.1` from the edge, the relay is promoted and then its token does not resolve |
| Scenarios.UnparsableAfterPromotionAsWritten | mod_incapsula.c:483-485 | as written, that request has no defined answer; the corrected model leaves the relay as client, with the edge in the note |
| Scenarios.StaleDittoExample | mod_incapsula.c:271-287 | as written, the single-hop header, then no header, then the header again leaves the third request on the edge, with the edge in the note; the corrected model gives it the visitor |

## Left out

- Configuration create and merge (`create_incapsula_server_config`, `merge_incapsula_server_config`): plain field copying. The merged record comes from `apr_palloc` (line 124) and `deny_all` is never assigned (lines 124-134). In a virtual host the DenyAllButIncapsula flag is therefore uninitialised: neither the base server's value nor the host's own is kept. The model takes whatever flag is in effect as the free parameter `Config.denyAll`.
- `set_ic_default_proxies`: modelled only as the constant `Scenarios.DefaultTable`. Its result is checked at line 110, but `rv` keeps only the status of the last `apr_ipsubnet_create` (line 188), so a failure on an earlier entry would go unnoticed. The seven constants are well-formed, so the model does not carry that status.
- `HostEntries` / `ProxyEntries`: on an error after some entries were pushed, the source leaves those entries in the table. Apache refuses the configuration on any directive error, so the model returns the error alone.
- The `REMOTEIP_OPTIMIZED` branch (`inet_pton`) and the pre-2011 `remote_addr` branch (lines 486-523): only the default build is modelled, which calls `apr_sockaddr_info_get` and uses `client_addr`.
- Logging, and the `remote_host` and `remote_logname` clearing (lines 534-536): they have no effect on the modelled state.
- The request's own `useragent_ip` and `useragent_addr` (lines 480-481): they are set from the connection before the copy at line 483, so the promoting request itself is attributed to the last promoted peer even when the connection then stores another address. The model returns the connection's state, which is what later requests on the connection see.
- The copy of the proxy list into a request header (lines 542-544): no directive sets `proxies_header_name`. Only three directives exist (lines 557-565); the field starts NULL from `apr_pcalloc` (line 103), and the merge only copies it (lines 128-130). So those lines never run.
- APR internals: name resolution, address text, and subnet parsing are parameters. Subnet containment (`Inet.Contains`) is modelled concretely as mask-and-compare, with the three cases of APR's `apr_ipsubnet_test`: an IPv4 address against an IPv4 subnet, an IPv4-mapped IPv6 address against an IPv4 subnet by its last four bytes, and any other IPv6 address against an IPv6 subnet. The cases follow `apr_ipsubnet_test` in APR's `network_io/unix/sockaddr.c`, which is not part of this model. A hostname token that resolves to several addresses is promoted to the first.
- Strings are modelled without NULs. Pool lifetimes and `apr_pstrdup` copies are left out.
- `ConnCache.Handle`, `ConnCache.Rewalk`: they require `Usable`, which excludes only a partial record (one created by a request that then answered 403) met by a request that carries the header. The source leaves `prior_remote` uninitialised in that case and passes it to `strcmp` at line 272, which is undefined behaviour. Without the header, `remote &&` skips the comparison, and the partial record is reverted like any other.
- `ConnCache.StoredAsWritten`: after an unparsable token that follows a promotion, the source copies from whatever `apr_sockaddr_info_get` left in `temp_sa`. APR sets it to NULL on failure, but APR is not part of this model, so the as-written variant gives no answer (None) in that case; the third finding below records it. The corrected model stores the current peer.
- 403 on any iteration: the source answers 403 whenever the current peer, after any number of promotions, matches no entry under DenyAllButIncapsula, not only for the physical peer. The model follows the code (`ChainWalk.DenyAllRefusesUntrustedStops`).
- Empty header: a header that is present but empty or blank is walked and stops on a blank token; it is not treated as an absent header.
- Trusted-proxy directives: they append after the built-in Incapsula ranges instead of replacing them. Because of first-match, they cannot re-flag an address inside those ranges (`Directive.AddedProxyNeverOverrides`).

## Findings

| source | as written | input that shows it | evidently intended | confidence | as-written member | corrected member |
|---|---|---|---|---|---|---|
| mod_incapsula.c:483-485 | the proxied address is copied from `temp_sa`, which after a refused token holds the refused address; the promoting request itself was already attributed to 198.51.100.1 at lines 480-481, so the refused address reaches the connection, and through it later requests on the connection, such as a repeated-header request | the built-in ranges plus an added external proxy 198.51.100.1; edge 199.83.128.5 sends `10.1.2.3, 198.51.100.1`; the edge promotes 198.51.100.1, whose claim to 10.1.2.3 is refused; `client_addr` becomes 10.1.2.3 while `client_ip` reads 198.51.100.1 | the connection keeps the last accepted peer, 198.51.100.1, address and text alike | not executed | ConnCache.StoredAsWritten, ConnCache.ReservedStopStoresRejected, Scenarios.SmuggledPrivateAsWritten | ConnCache.Rewalk |
| mod_incapsula.c:271-287 | the revert does not clear `prior_remote`, and the repeated-header path restores nothing | edge 199.83.128.5 sends `203.0.113.9`, which promotes the visitor; a request without the header reverts the connection to the edge; `203.0.113.9` again matches `prior_remote` and jumps to `ditto_request_rec`, so the request runs with the edge as client while the proxy list note is set | the repeated header gets the cached client back, as on a fresh connection | not executed | ConnCache.HandleAsWritten, ConnCache.StaleDittoAfterRevert, Scenarios.StaleDittoExample | ConnCache.Handle, ConnCache.DittoAfterRevertCorrected |
| mod_incapsula.c:483 | after a token that does not resolve (lines 395-408) the loop breaks with `temp_sa` as the failed lookup left it, and line 483 copies from it | the built-in ranges plus an added external proxy 198.51.100.1; edge 199.83.128.5 sends `bogus, 198.51.100.1`, and `bogus` does not resolve; the edge promotes 198.51.100.1, then the lookup of `bogus` fails and the promotion is kept, so line 483 runs | the connection keeps the last accepted peer, 198.51.100.1 | not executed; relies on `apr_sockaddr_info_get` setting `*sa` to NULL on failure, and APR is not part of this model | ConnCache.StoredAsWritten, ConnCache.UnparsableStopFails, Scenarios.UnparsableAfterPromotionAsWritten | ConnCache.Rewalk |
