# Verified model of the pio proxy daemon

pio is a Go daemon that puts local proxy users in front of upstream proxies. It
fetches upstreams from Webshare and keeps their display names stable, resolves
every connection against an immutable routing snapshot, moves users between
upstreams while connections are live, speaks SOCKS5 on both sides, bans clients
that keep failing to authenticate, and prints a subscription that a Chrome
extension reads back. This project models those parts in Dafny 4.11 and proves
what each of them is for.

`dafny verify dfyconfig.toml` checks everything.

## The modules

| part of the daemon | modules |
|---|---|
| sync and display names | `DisplayName`, `Allocator`, `Store`, `Sync`, `SyncLaws`, `SyncNames`, `SyncReplace` |
| routing snapshots and rebuilds | `Routing`, `RoutingCore`, `RoutingLaws` |
| hot switch under concurrency | `HotSwitch`, `HotSwitchLaws`, `Registry` |
| deny list | `DenyList` |
| SOCKS5 server, shared port, client, both chained | `Wire`, `Socks5Listener`, `Socks5Laws`, `Unified`, `Socks5Dialer`, `Socks5DialerLaws`, `Socks5Interop` |
| subscription printer and parser | `Percent`, `Subscription`, `SubscriptionParser`, `SubscriptionLaws` |
| the byte bridge | `Bridge` |
| shared notation | `Prelude`, `Text`, `Decimal`, `NetAddr` |

Code that works in place is a class or a method with loops (the allocator,
`SyncKey`, `Core`, the registry, the deny list, the connection readers, the
handlers, `parseSubscription`). Each such method is tied to a specification
function on values, and the laws are proved about that function. Concurrent code
(the hot switch, the chained SOCKS5 handshake, `Bridge`) is a transition system,
and its laws hold in every interleaving.

## Representation

* A Go string is a byte string; a Dafny `string` here holds one byte per
  character. The extension's text is held as its UTF-8 bytes.
* SQLite is three maps (upstream rows, users, keys). A transaction is a copy that
  replaces the tables at once or not at all; deleting a row sets the mapping of
  its users to NULL.
* A row id is the text that the program hashes, so ids are injective by
  construction. Passwords are stored in the clear and compared with `==`.
* A routing snapshot is a value, so nothing a reader holds can change under it. A
  cancel group is a number; a separate set says which numbers are cancelled.
* A connection delivers its input in chunks of any size and then ends. An expired
  deadline is an end of input. Writes succeed as long as the peer accepts them.
* Time, fetched lists, dial results and storage failures are parameters.

## Where a promise fails

Each of these is shown by a lemma with a concrete case, and a second lemma gives
the condition under which the promise holds, exactly where it says "if and only
if".

* After a sync the names of a key are distinct if and only if the survivors' final
  names are and none of them is exposed, that is, an unreserved slot that enough
  newcomers of its country reach (`SyncNames.NamesDistinctExactly`). Only survivors
  that change country, or bear this key's form under another one, can spoil rows
  that were good (`SyncNames.GoodSyncExactly`). Two legacy rows can be rewritten to
  one name (`SyncNames.KeptLegacyRowsCollide`), and a row moved to another country
  loses its name to a newcomer (`SyncNames.AMovedRowLosesItsName`).
* A user's rename sticks through a sync if and only if it is not legacy-shaped, or
  is what the rewrite would make of it (`SyncNames.RenamesStickExactly`).
* An incremental rebuild answers as the database does if and only if the memory it
  started from agrees with the tables on every name, whatever that memory is
  (`RoutingLaws.RebuildFollowsExactly`). With one universal password on both sides
  that is to know the tables' users, passwords and mappings, with no remembered
  upstream id back after the database unmapped it
  (`RoutingLaws.AgreementIsKnowledge`). It fails when an id comes back
  (`RoutingLaws.AnIdCanComeBack`), when a deleted user stays in memory because the
  handler's Hydrate failed (`RoutingLaws.ADeletedUserCanStay`), and when such a user
  comes back because a rebuild captured its snapshot before a Hydrate that succeeded
  (`RoutingLaws.ADeletedUserCanComeBack`).
* A connection between `Acquire` and `Register` can outlive a manual-proxy edit on
  the old definition, by display name (`HotSwitch.AConnectionCanEscape`) or with a
  group a Hydrate orphaned (`HotSwitchLaws.AnOrphanCanEscape`);
  `HotSwitch.FinishedEditLeavesOnlyOrphans` says which connections can, and one
  granted by display name does if and only if no sweep finds it registered
  (`HotSwitchLaws.DisplayNameSurvivesExactly`). A remap can be outlived in the same
  way (`HotSwitchLaws.ARemapCanBeEscaped`), and so can a user's deletion, which
  closes the user's connections before Hydrate forgets the user
  (`HotSwitchLaws.ADeletedUserKeepsRunning`). Over any stretch of any run a
  connection is cancelled if and only if it was before, a sweep found it registered
  or its group was cancelled (`HotSwitchLaws.CancelledExactly`); for a remap that
  is the sweep alone (`HotSwitchLaws.RemapCancelsExactly`), for an edit's or a
  delete's rebuild the sweeps and the groups it holds
  (`HotSwitchLaws.EditCancelsExactly`).
* Two daemons chained over SOCKS5 agree on host and port for every target the
  dialler can parse, but the text survives if and only if it was not bracketed and
  wrote its port without sign or leading zeros (`Socks5Interop.TargetSurvivesExactly`).
  The second daemon's own dialler parses what is left if and only if the host has
  no colon, and then to the same host and port (`Socks5Interop.NextHopParsesExactly`):
  an IPv6 target, which loses its brackets, it cannot parse
  (`Socks5Interop.ChainedIPv6IsUndialable`).
* A subscription reads back faithfully if and only if every display name and the
  password are UTF-8 (`SubscriptionLaws.BodyRoundTripsExactlyOnUtf8`); otherwise a
  proxy can be lost (`SubscriptionLaws.AnUndecodableNameCanBeLost`). Names and
  password that come in through the API are UTF-8, since its JSON decoding replaces
  other bytes, so this takes a row written some other way.
* The first direction of a bridge to end cuts the other
  (`Bridge.ADirectionCanBeCut`). A returned bridge has delivered all it read in a
  direction if and only if no write of that direction failed
  (`Bridge.DeliversExactly`).

One precondition the daemon always meets: the registry's key text tells pairs
apart if and only if no upstream id ends in a bar followed by an upstream id
(`Registry.KeysIdentifyExactly`), and the ids the daemon makes never do
(`Registry.MadeIdsAreUnconfused`).

Where comments in the source disagree with the code, the code is followed.

* `internal/routing/swap.go:21` and `:117` say SwapUserMapping cancels the old
  cancel group; only its callback runs.
* `internal/routing/swap.go:185` and `:270` say the old groups are cancelled
  outside both locks; `mappingChangeMu` is still held there.

## Model

| member | source | states |
|---|---|---|
| DisplayName.SanitizeLabel | internal/sync/displayname.go:17-35 | the loop keeps letters, digits and hyphens, cuts at 12 and falls back to "key" |
| DisplayName.SanitizedLabels | internal/sync/displayname.go:14-40 | sanitizing lands in, and fixes exactly, the labels the name pattern accepts |
| DisplayName.CanonicalSplitIsUnique | internal/sync/displayname.go:37-60 | a canonical name splits in one way only, whatever hyphens the label has, and the parser returns that split |
| DisplayName.LegacySplitIsUnique | internal/sync/displayname.go:42-75 | the same for the legacy form |
| DisplayName.ParseIsTheCanonicalPattern | internal/sync/displayname.go:50-60 | the parser accepts a name iff the pattern has a match whose number fits an int, and returns its groups |
| DisplayName.ParseIsTheLegacyPattern | internal/sync/displayname.go:65-75 | the same for the legacy pattern |
| DisplayName.FormatThenParse | internal/sync/displayname.go:50-80 | parsing a formatted name returns label, country and number |
| DisplayName.FormatIsInjective | internal/sync/displayname.go:78-80 | two equal formatted names have equal parts, with no bound on the numbers |
| DisplayName.RewriteIsAFixpoint | internal/sync/sync.go:119-127 | rewriting a rewritten name changes nothing, also when it is still legacy-shaped |
| DisplayName.ARewrittenNameCanLookLegacy | internal/sync/sync.go:125-127 | such a name exists, so the fixpoint law has content |
| Allocator.LeastFreeIsUnique | internal/sync/displayname.go:111-120 | the least positive unused number is the only one with no gap below it |
| Allocator.DrawsAreTheSmallest | internal/sync/displayname.go:111-120 | m successive calls return the m smallest free numbers in increasing order |
| Allocator.LowestFreeIsUnique | internal/sync/displayname.go:111-120 | there is one set of k lowest free numbers |
| Allocator.RankOfGiven | internal/sync/displayname.go:111-120 | a number is among the k lowest free ones iff it is free and fewer than k free numbers lie below it |
| Allocator.SeqAllocator.Reserve | internal/sync/displayname.go:106-109 | marks one slot and no other |
| Allocator.SeqAllocator.Next | internal/sync/displayname.go:111-120 | hands out the least free number, at most one more than the country's count, and leaves other countries alone |
| Allocator.Search | internal/sync/displayname.go:112-120 | the unbounded search ends, at the least free number |
| Sync.BuildSeqAllocator | internal/sync/sync.go:250-281 | reserves exactly the survivors' canonical slots and the numbers of their legacy names |
| Sync.WriteResponse | internal/sync/sync.go:105-169 | updates survivors, inserts newcomers under allocated names, stops at a clashing insert |
| Sync.DeleteStale | internal/sync/sync.go:178-187 | deletes the rows the response lacks, unmapping their users |
| Sync.Service.SyncKey | internal/sync/sync.go:73-196 | all-or-nothing reconciliation; a failed fetch only records its message, a clash or a storage failure at any point leaves the tables as they were |
| SyncLaws.SyncFailsExactlyOnClash | internal/sync/sync.go:157-169 | a sync fails iff a response id belongs to another owner's row or a new id occurs twice |
| SyncLaws.SyncHasExactlyTheResponse | internal/sync/sync.go:87-196 | the key ends with exactly the response's ids; no row of another key, manual or default source is touched |
| SyncLaws.SyncReportsTheResponse | internal/sync/sync.go:114-169 | each row reports the last element with its id; survivors keep name and protocol but for the legacy rewrite; newcomers get a canonical name |
| SyncLaws.SyncUnmapsExactlyTheDeleted | internal/sync/sync.go:171-187 | exactly the users of deleted rows are unmapped, and foreign keys hold again |
| SyncLaws.RepeatedSyncChangesNothing | internal/sync/sync.go:104-196 | the same response again succeeds and changes no row but its last-seen time, and no user |
| SyncNames.FinalSlotIsReserved | internal/sync/sync.go:265-281 | a survivor's final slot is reserved whether its name is canonical, legacy or both |
| SyncNames.NamesDistinctExactly | internal/sync/sync.go:104-169 | for any response with two-letter countries, the key's names come out pairwise distinct iff its survivors' final names are and none is an unreserved slot that enough newcomers reach |
| SyncNames.SlotIsGivenExactly | internal/sync/sync.go:265-281 | a slot goes to some newcomer iff it is unreserved and fewer free slots than newcomers lie below it |
| SyncNames.StayingPutIsSafe | internal/sync/sync.go:265-281 | a survivor that stays in its country, or has a name of its user's, is never exposed |
| SyncNames.RenamesStickExactly | internal/sync/sync.go:116-127 | a survivor keeps its name iff that is not legacy-shaped or is a fixpoint of the rewrite |
| SyncNames.SyncSettlesRow | internal/sync/sync.go:104-169 | newcomers, and survivors that stay put, come out of a sync with a name no later sync rewrites or fails to reserve |
| SyncNames.GoodSyncExactly | internal/sync/sync.go:104-169 | from rows whose names, once rewritten, are distinct a sync leaves the names distinct iff each survivor that changes country, or bears this key's form under another one, comes out with a name no other survivor has and no newcomer reaches |
| SyncNames.StableResponsesFit | internal/sync/sync.go:265-281 | a response that keeps survivors in their country, or has them under a name of their user's, meets that, and re-establishes what it needs of the names |
| SyncNames.RenameFitsExactly | internal/repo/upstreams.go:239-241 | a rename leaves distinct names distinct, now and at the next sync, iff no other row has the new name or comes to the name a sync would make of it |
| SyncNames.NamesStayDistinctOverAnyRun | internal/sync/sync.go:73-196 | over any sequence of syncs, renames and unrelated changes that each fit, moves between countries included, the names are distinct from the first sync on |
| SyncNames.SettledNamesNeverChange | internal/sync/sync.go:116-127 | a row at rest that is not deleted, renamed, or moved under a legacy-shaped name keeps its name, whatever happens to the others |
| SyncNames.LegacyRowsCanCollide | internal/sync/sync.go:125-127 | two legacy rows that are rewritten to one name |
| SyncNames.KeptLegacyRowsCollide | internal/sync/sync.go:125-127 | every sync that keeps two such rows in their country leaves them with one name |
| SyncNames.AMovedRowLosesItsName | internal/sync/sync.go:271-276 | a row moved to another country under a canonical name collides with the first newcomer of the old one |
| SyncReplace.ReplacementConservesNames | internal/sync/sync.go:94-169 | swapping j rows of a country with slots 1..k for j new ones keeps the set of names and every survivor's own name |
| RoutingCore.Core.CountNames | internal/routing/routing.go:108-113 | the counting loop counts the bearers of every name |
| RoutingCore.Core.BuildDisplayNameRoutes | internal/routing/routing.go:107-129 | indexes exactly the names with one bearer, under fresh pairwise distinct groups |
| RoutingCore.Core.Hydrate | internal/routing/routing.go:184-231 | reads the tables whole, gives every user and route a fresh group, and keeps the old state on failure |
| RoutingCore.Core.SwapUserMapping | internal/routing/swap.go:30-124 | commits, then swaps the pointer; memory is never ahead of the commit, a failure changes neither, the old group is handed on but not cancelled |
| RoutingCore.Core.RebuildAfterSync | internal/routing/swap.go:132-196 | one callback per healthy-to-broken user, exactly those users' old groups cancelled, every other group kept; without a callback nothing is cancelled |
| RoutingCore.Core.RebuildForUpstreamChange | internal/routing/swap.go:213-281 | the same for every user mapped to the edited upstream; an empty id is refused |
| RoutingCore.RebuildKeepsValid | internal/routing/swap.go:142-196 | after a rebuild every user and route resolves into the new snapshot, and all groups are distinct and live even after the cancels |
| RoutingCore.SwapKeepsValid | internal/routing/swap.go:75-124 | the same after a single user is moved |
| RoutingLaws.HydratedFollows | internal/tunnel/tunnel.go:74-114 | after Hydrate, Acquire answers every credential as the tables alone would |
| RoutingLaws.SwapKeepsFollowing | internal/routing/swap.go:30-124 | after SwapUserMapping memory and tables still agree on every credential |
| RoutingLaws.RebuildFollowsExactly | internal/routing/swap.go:142-196 | a rebuild from any memory answers every credential as the tables do iff that memory agrees with them on every name: the same user with the same password, mapping and health, or no such user on either side, up to what the two universal passwords make alike |
| RoutingLaws.AgreementIsKnowledge | internal/routing/swap.go:142-196 | with one universal password, agreement on every name is knowing the tables' users, passwords and mappings with no remembered id back after being unmapped |
| RoutingLaws.RebuildsRefineHydrateExactly | internal/routing/swap.go:132-281 | in every run of commits, captures, failures, remaps, rebuilds and Hydrates, a rebuild answers as a Hydrate of the same tables would iff the memory it captured agrees with them on every name |
| RoutingLaws.UpToDateAgrees | internal/routing/swap.go:132-281 | in every such run a captured memory agrees if no user commit has overtaken it and no id deleted since its Hydrate is back |
| RoutingLaws.AnswersStayRight | internal/routing/swap.go:30-281 | from such a rebuild on, remaps, rebuilds, Hydrates and failures leave memory answering as the tables do until rows or users are next committed |
| RoutingLaws.AnIdCanComeBack | internal/routing/swap.go:142-169 | a run of deletes, inserts and rebuilds after which memory grants what the database refuses |
| RoutingLaws.ADeletedUserCanStay | internal/api/server.go:600-608 | a run in which a deleted user, after a failed Hydrate, still gets through after a rebuild |
| RoutingLaws.ADeletedUserCanComeBack | internal/routing/swap.go:137-185 | a run in which a rebuild that captured its snapshot first undoes a successful Hydrate |
| RoutingLaws.SecondRebuildRotatesNobody | internal/routing/swap.go:142-196 | a second rebuild on the same rows calls back for nobody |
| RoutingLaws.RoutableIffUnique | internal/routing/routing.go:103-129 | a name is indexed iff it is non-empty and one row bears it, whatever the map order |
| RoutingLaws.UniversalReachesTheIndex | internal/tunnel/tunnel.go:93-108 | the universal password reaches a name iff it is indexed, and then its only bearer |
| HotSwitch.EveryRunKeepsInv | internal/routing/swap.go:213-281 | the invariant of acquire, register, commit, capture, read, failure, swap, cancel and sweep steps in every interleaving |
| HotSwitch.LaterAcquiresSeeTheEdit | internal/routing/swap.go:258-268 | from the pointer swap on, whoever acquires the edited upstream gets its new definition |
| HotSwitch.FinishedEditLeavesOnlyOrphans | internal/api/server.go:433-475 | after the sweeps of an edit or a delete, connections to the old definition that were registered or carry a held group are cancelled; escapees were unregistered with an orphaned or display-name group, or after a delete with one of a user its rebuild does not rotate |
| HotSwitch.NobodyAcquiresTheDeleted | internal/api/server.go:445-475 | from a delete's pointer swap on nobody acquires the upstream until its id is committed again |
| HotSwitch.CancelledStays | internal/registry/registry.go:89-143 | no step revives a cancelled connection |
| HotSwitch.AConnectionCanEscape | internal/registry/registry.go:112-125 | a run in which a connection acquired before the swap and registered after the sweep survives |
| HotSwitchLaws.AnOrphanCanEscape | internal/routing/routing.go:184-231 | a run in which a connection whose group a Hydrate orphaned before the edit survives it |
| HotSwitchLaws.DisplayNameGroupsLive | internal/routing/swap.go:185-194 | no step of any run cancels the group of a display name |
| HotSwitchLaws.DisplayNameSurvivesExactly | internal/registry/registry.go:106-125 | a connection granted by display name is cancelled iff some sweep found it registered |
| HotSwitchLaws.CancelledExactly | internal/registry/registry.go:89-143 | over any stretch of any run a connection is cancelled iff it was before, a sweep of any kind found it registered, or its group was cancelled |
| HotSwitchLaws.RemapCancelsExactly | internal/api/server.go:585-592 | from a remap's pointer swap to its release a connection becomes cancelled iff a sweep found it registered |
| HotSwitchLaws.EditCancelsExactly | internal/routing/swap.go:258-281 | from an edit's or a delete's pointer swap to its release a connection becomes cancelled iff a sweep found it registered or the rebuild held its group |
| HotSwitchLaws.LaterAcquiresSeeTheRemap | internal/routing/swap.go:95-115 | from a remap's pointer swap on, acquiring with the user's own password gives an upstream committed for the user by it or later |
| HotSwitchLaws.RemapClosesThePair | internal/api/server.go:585-592 | a connection registered under the remapped user and its old upstream at the pointer swap is cancelled before the lock is released |
| HotSwitchLaws.SweptByTheRemapAreCancelled | internal/api/server.go:585-586 | the remap's sweep records exactly what is registered under the pair then, and whoever it recorded stays cancelled |
| HotSwitchLaws.ARemapCanBeEscaped | internal/routing/swap.go:117-121 | a run in which a connection registered after the sweep survives, the old group never being cancelled |
| HotSwitchLaws.ADeletedUserKeepsRunning | internal/api/server.go:600-608 | a run in which somebody acquires as a deleted user between the sweep and the Hydrate and is never cancelled |
| Registry.EveryRunIsGrouped | internal/registry/registry.go:53-84 | after any registrations and removals the index is exactly the grouping of live connections, with no empty group |
| Registry.LookupIsTheScan | internal/registry/registry.go:89-104 | the index lookup finds what a full scan on (username, upstream) would, for ids whose keys cannot be confused |
| Registry.KeysIdentifyExactly | internal/registry/registry.go:56-56 | over a set of upstream ids the key text determines the pair iff no id ends in a bar followed by an id |
| Registry.MadeIdsAreUnconfused | internal/repo/upstreams.go:419-425 | the ids the daemon makes, hexadecimal or "default", meet that |
| Registry.ConnectionRegistry.Register | internal/registry/registry.go:53-67 | adds one connection under a new id to both indexes |
| Registry.ConnectionRegistry.Deregister | internal/registry/registry.go:70-84 | removes it from both and drops an empty group |
| Registry.RegisterThenDeregister | internal/registry/registry.go:53-84 | a registration and its removal leave nothing behind but the used id |
| Registry.ConnectionRegistry.CloseByUserUpstream | internal/registry/registry.go:89-104 | cancels and counts precisely the scan's connections |
| Registry.ConnectionRegistry.CloseByUpstream | internal/registry/registry.go:112-125 | cancels and counts every connection of an upstream |
| Registry.ConnectionRegistry.CloseByUsername | internal/registry/registry.go:130-143 | cancels and counts every connection of a username |
| DenyList.List.IsDenied | internal/auth/denylist.go:41-53 | answers and forgets an expired ban, one ip at a time |
| DenyList.List.RecordFailure | internal/auth/denylist.go:58-76 | appends, trims the front and trips at ten |
| DenyList.AnswersFollowTheHistory | internal/auth/denylist.go:41-76 | in every run, trips and denials agree with the whole untrimmed history, and stored lists stay under ten |
| DenyList.BannedFollowsTheHistory | internal/auth/denylist.go:97-108 | the listing holds exactly the ips the history denies, with their trip times |
| DenyList.ReadsAreInvisible | internal/auth/denylist.go:41-53 | inserting a query or a listing anywhere in a history changes no answer given later, whatever comes in between |
| Wire.Conn.ReadFull | internal/listener/unified.go:169-178 | reads n bytes of replay and stream, the result depending on the pending bytes only, not on the chunks |
| Wire.Conn.Prefix | internal/listener/unified.go:174-176 | sniffed bytes are served again ahead of the stream |
| Socks5Listener.ReadRFC1929 | internal/listener/socks5.go:263-284 | reads one sub-negotiation and leaves what follows |
| Socks5Listener.ReadRequestAddr | internal/listener/socks5.go:303-337 | reads address and port of the three types and spells the target |
| Socks5Listener.HandleConn | internal/listener/socks5.go:133-258 | for every stream, chunking and peer: the replies written, whether the deny list hears of it, what is dialled, that it was registered before the dial and has left the registry in the end, what is left unread, and closing |
| Socks5Laws.DialsExactlyOnAnAcceptedHandshake | internal/listener/socks5.go:144-233 | the server dials iff the stream starts with a handshake whose credentials Acquire accepts, having consumed exactly that |
| Socks5Laws.AcknowledgesExactlyTheAccepted | internal/listener/socks5.go:174-201 | credentials are acknowledged iff the stream frames some that Acquire accepts |
| Socks5Laws.AnswersAreFixed | internal/listener/socks5.go:144-258 | the replies are one of seven sequences |
| Socks5Laws.RefusalsFollowTheHeader | internal/listener/socks5.go:203-225 | after accepted credentials four header bytes settle a refusal and its code without waiting for an address, and no other request is refused |
| Socks5Laws.DecisionsAreFinal | internal/listener/socks5.go:144-233 | a decision needs no later byte, and what was sent while waiting starts what is sent in the end |
| Unified.HandleConn | internal/listener/unified.go:138-166 | a sniffed SOCKS5 connection is served as on its own port, and any other reaches the HTTP handler whole |
| Socks5Dialer.Dial | internal/tunnel/tunnel.go:313-442 | what the client writes, its error kind and the bytes left, for every server stream, chunking and peer |
| Socks5Dialer.ReadReply | internal/tunnel/tunnel.go:401-438 | drains a success reply of any address type |
| Socks5DialerLaws.ConnectsExactlyOnSuccess | internal/tunnel/tunnel.go:326-442 | the dialler connects iff the server's bytes begin with an agreed method, a granted login and a success reply, of which it drains every byte and no more |
| Socks5DialerLaws.VerdictsAreFinal | internal/tunnel/tunnel.go:322-442 | more bytes never change a verdict or what was said before it |
| Socks5Interop.EveryRunEndsSettled | internal/tunnel/tunnel.go:299-442 | client and server chained: every run has at most 793 steps and can stop only with nothing in flight |
| Socks5Interop.AcceptedHandshakeCompletes | internal/listener/socks5.go:133-258 | a settled accepted handshake, for any target the dialler parses: host and port arrive, neither side leaves or steals a byte, and the client learns how the dial went |
| Socks5Interop.RejectedHandshakeFails | internal/tunnel/tunnel.go:360-368 | rejected credentials end in the client's authentication error, whatever its target, its request unsent |
| Socks5Interop.UnparsableTargetFails | internal/tunnel/tunnel.go:372-386 | a target the client cannot parse ends in its dial error after a granted login, and the server dials nothing |
| Socks5Interop.LongCredentialsFail | internal/tunnel/tunnel.go:343-350 | credentials over 255 bytes end in the client's dial error before any login is sent |
| Socks5Interop.TargetSurvivesExactly | internal/tunnel/tunnel.go:372-392 | the server dials the client's target text iff that was unbracketed with a canonical port |
| Socks5Interop.NextHopParsesExactly | internal/tunnel/tunnel.go:372-386 | of what the server makes of any target the client parses, the next dialler parses the same host and port iff the host has no colon |
| Socks5Interop.ChainedIPv6IsUndialable | internal/listener/socks5.go:312-317 | so an IPv6 target, sent on without brackets, cannot be dialled by the next hop |
| Socks5Interop.EmptyUsernameIsRefused | internal/tunnel/tunnel.go:316-337 | without a username the client offers no authentication, which the server refuses |
| Percent.DecodeEscape | extension/lib/parse.js:21-28 | decoding what Go escaped returns the text iff it is UTF-8, and fails otherwise |
| Percent.SurvivesExactlyUtf8 | extension/lib/parse.js:18-28 | a component survives printing and reading iff it is UTF-8 |
| Subscription.SubscriptionHandler | internal/api/subscription.go:41-117 | the storage failures and refusals, and a body with one line per indexed name in byte order |
| Subscription.ListingIsUnique | internal/api/subscription.go:93-100 | the listing does not depend on the order the map was walked in |
| SubscriptionParser.ParseSubscription | extension/lib/parse.js:80-92 | the loop with its seen set yields the records of the lines, with distinct identities |
| SubscriptionLaws.LineParses | extension/lib/parse.js:49-75 | the pattern never cuts a printed line in the wrong place, whatever bytes name and password hold |
| SubscriptionLaws.UsernameRecoveredExactlyOnUtf8 | extension/lib/parse.js:61-63 | a username is recovered iff the name is UTF-8 |
| SubscriptionLaws.BodyRoundTrips | internal/api/subscription.go:102-112 | a body reads back as one record per name, in order, every part recovered, none lost to de-duplication |
| SubscriptionLaws.BodyRoundTripsExactlyOnUtf8 | extension/lib/parse.js:80-92 | it does so iff every name is UTF-8 and, when there is a name, the password is |
| SubscriptionLaws.AnUndecodableNameCanBeLost | extension/lib/parse.js:86-88 | two names, one not UTF-8, that the extension takes for one proxy |
| SubscriptionLaws.SubscriptionIsTheRoutableSet | internal/api/subscription.go:24-27 | the extension lists a name iff one row alone bears it, and the record's credentials reach that row |
| Bridge.WhatIsWrittenWasRead | internal/tunnel/tunnel.go:459-502 | in every interleaving each socket is written a prefix of what was read from the other, and the counts returned are those lengths |
| Bridge.CancelledCanAdvance | internal/tunnel/tunnel.go:468-483 | a cancelled bridge can always advance without the network |
| Bridge.CancelledEnds | internal/tunnel/tunnel.go:459-502 | once cancelled, at most seven steps are not data moves, at most five of any kind follow the watcher, and it stops only with both copies ended and both sockets closed |
| Bridge.DeliversExactly | internal/tunnel/tunnel.go:459-502 | a returned bridge has written all it read in a direction iff no write of that direction failed |
| Bridge.ADirectionCanBeCut | internal/tunnel/tunnel.go:485-500 | a run that loses bytes of the direction that did not end first |

## Left out

- The HTTP proxy listener and the HTTP and HTTPS CONNECT dialler: mostly library parsing; the shared port only hands the HTTP branch its whole stream, with no claim about what that branch consumes.
- Bridge: the context error it returns is not modelled.
- Encryption, hashing, constant-time comparison: replaced by plain values, injective ids and equality.
- SQL text, migrations, settings, audit log, latency probes, the Webshare client and its retries, `ReplaceByIP`: input and output.
- The web panel, the app, the rest of the extension, `withType`, the subscription URL helper.
- HotSwitch: a Hydrate is one atomic step although the code does not hold `mappingChangeMu` in it, and a registration or a sweep is one atomic step.
- HotSwitch: deriving a context from a group is not a step of its own; a connection counts as cancelled as soon as its group or its own context is.
- RoutingLaws: reading the rows and installing the snapshot are one step here; they are two in HotSwitch.
- RoutingCore.Core.RebuildAfterSync: requires a hydrated state, since the code dereferences the snapshot; version number and build time of a snapshot are not modelled.
- Registry.ConnectionRegistry.Register: the 64-bit connection id does not wrap around.
- DisplayName.SanitizeLabel: runs over bytes where the code runs over runes; every byte of a multi-byte rune is dropped either way.
- SyncNames.NamesStayDistinctOverAnyRun: distinctness is per key; each response has two-letter countries and each step fits, that is, movers and renames take names of their own.
- Socks5Listener.HandleConn: the spelling of IP addresses is a parameter, the deny list's verdict and the recorded failure are parameter and result, and what the bridge copies is not part of it (see Bridge).
- Socks5Dialer.Dial: starts on an open connection; the TCP dial and its error are not modelled.
- Subscription.SortStrings: the library's sorting algorithm is not modelled; an insertion sort stands for it.
- Subscription.SubscriptionHandler: white space around the configured host is trimmed and a blank host replaced before the call.
- SubscriptionLaws.BodyRoundTrips: hosts that the printer escapes or brackets, IPv6 among them, are excluded; the extension's host pattern does not accept them.
- SubscriptionParser.ParseLine: white space and line terminators beyond ASCII are ordinary characters.
