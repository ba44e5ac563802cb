# A verified model of WG-Manager's hard cores

WG-Manager runs WireGuard and OpenVPN on one host: it keeps a table of users, hands out tunnel
addresses from two pools, bills traffic from the kernel's counters, blocks users through one ipset,
and widens a pool in place while mirroring the host's firewall rules. This project models those
parts in Dafny, in the form the Go code has (loops over mutable state stay loops over mutable state,
pure helpers stay functions), and proves what they are for.

`dafny verify dfyconfig.toml` verifies the whole project.

## Files

| file | what it models |
|---|---|
| `Bitwise.dfy`, `IPv4.dfy` | byte-wise address arithmetic, CIDR blocks, the search for a free host, pool capacity |
| `Planner.dfy` | the plan for widening the pools, its conflict checks, and what `--auto` applies |
| `Text.dfy`, `Numbers.dfy` | splitting, trimming, decimal numbers with 64-bit limits |
| `Tokenizer.dfy`, `Firewall.dfy`, `Listing.dfy` | tokens of an iptables listing; commands with precomputed positions; their run on the kernel's lists; written tables as listings |
| `Verdict.dfy`, `NewRange.dfy`, `ServedTables.dfy`, `CopyLimits.dfy`, `BlockTables.dfy` | what packets meet before and after mirroring, and exactly when mirroring is faithful: in every reading of the tokens, and with network tokens read as blocks |
| `Peers.dfy`, `Enforcement.dfy`, `Reset.dfy`, `Metering.dfy` | a user's row; one enforcement pass; a recharge; one traffic counter and its account |
| `Machine.dfy`, `Conservation.dfy`, `Quiescence.dfy`, `Stability.dfy`, `Decisions.dfy` | passes, recharges, panel writes, creations, attachments and deletions as interleaved steps, and invariants over all their runs; who is blocked, told from traffic and administration |
| `Pools.dfy`, `Accounts.dfy`, `Seats.dfy` | the two pools over time; the operations on accounts, pools and client-config files; pools and passes running together |
| `OvpnStatus.dfy` | OpenVPN's status output in both versions and its reader |
| `WgConf.dfy`, `ConfImport.dfy`, `PeerFile.dfy` | rendering wg0.conf, importing it, and the round trip from and to the table |
| `Migration.dfy` | exporting users and importing them in one transaction |

## How the parts fit

* The pool invariant (`Pools.RunsKeepInv`) makes all tunnel addresses distinct; distinct addresses are
  exactly what makes one ipset right for everybody (`Enforcement.DistinctMeansExact`); so a table kept
  by the pool rules always gets an exact block set (`Pools.PoolsMakeBlockingExact`). The planner's
  guarantees (`Planner.PoolsEndDisjoint`, `Planner.ServersAndHostsStay`) are what widening steps need.
* A pass is specified twice: as one sequential method with loop and sweep, and as many small steps of
  the concurrent machine. `Stability.UninterruptedPass` shows that the steps without interruption are
  the method.
* A firewall run is specified three times: the command list with stale positions, the chain-by-chain
  list transformation, and the verdict a packet meets. `Firewall.CommandsMirrorEveryChain` and the
  theorems of `Verdict`, `NewRange` and `ServedTables` connect them; `Listing.WrittenTableLists` gives
  the listings they start from.
* Users come and go while passes run (`Machine`), under ids that are never used again. What a pass has
  not seen is known exactly: its flags are right for everybody, and its block set but for addresses attached
  to blocked users since its snapshot and addresses left behind by blocked users deleted since
  (`Quiescence.QuietMeansEnforced`).
* The pool machine and the concurrent machine run together (`Seats.RunsKeepJoint`): that the addresses of
  newcomers are free, which the one assumes, is what the other proves.

## Where the code does less than hoped

* A mirrored rule that names the old pool outside `-s`, `-d` and comments (say as a NETMAP target)
  changes the fate of old traffic; naming it only there, or having no target, is exactly the condition
  (`CopyLimits.HarmlessExactly`, with `CopyLimits.NetmapCopyIsHarmful`). In a given table such a copy may still
  do no harm; the check that decides it is `BlockTables.MeetsAlike` (`BlockTables.OldTrafficExactly`).
* Distinct rules are not enough for the added range to be served: two rules can share a copy, which is
  then inserted only once, behind a DROP for example (`CopyLimits.DistinctRulesNotEnough`,
  `CopyLimits.SharedCopyDropsNewRange`). The range is served exactly when no skipped copy is overtaken by a
  rule with another target, which can be checked on the chains before the run (`CopyLimits.ServedExactly`,
  `NewRange.CheckOrder`). An ordinary first run passes (`ServedTables.FirstRunIsFresh`), so does a chain whose
  copies already stand in front (`ServedTables.CopiesInFrontSuffice`), and so does any repeated run
  (`ServedTables.ServedAgain`). With network tokens read as blocks of addresses the condition is exact for
  every single packet (`BlockTables.PacketServedExactly`).
* A panel request that creates a WireGuard user can fail and leave his row and address behind: exactly when
  the row can be inserted but a live peer is in no row, so that rendering wg0.conf refuses
  (`Accounts.Panel.CreatePeer`).
* Neither creating nor deleting a user runs a pass, so the address of a deleted user stays in the block set
  until the next one, even when a new user has got it, exactly if he was blocked with it
  (`Quiescence.ReissuedExactly`, with a run from the start in `Quiescence.ReissuedAddressStaysBlocked`).
* Nor does attaching OpenVPN: a blocked user's new address stays outside the block set until the next pass
  (`Quiescence.AttachedAddressIsOpen`).
* Importing a wg0.conf stores the peer collected so far only at the next heading or the end: of several peers
  without headings only the last is stored, with the preshared key of the one before if it has none
  (`ConfImport.NamelessAreLost`).
* A client whose common name is `END`, `ROUTING TABLE` or `GLOBAL STATS` ends the client section of a
  version-1 status file early (`OvpnStatus.VersionsAgreeExactly`).
* `recharge --reset` on the command line zeroes the stored counters instead of re-basing them, so the
  next pass bills the live counters again (`Reset.CliResetRebills`); it also runs in another process, where
  the enforcement lock does not reach, and a pass whose turn for the user is still to come then puts its bill
  over it (`Conservation.CliResetIsUndone`). It stands exactly if that turn is not to come, or the bill in hand
  is itself zero (`Conservation.CliResetStandsExactly`, `Conservation.ResetBill`).
* The panel's delete handler removes the client-config file only if its configuration names the OpenVPN
  directory, although elsewhere an empty setting means `/etc/openvpn`. One such deletion is enough for two
  client files with one address (`Pools.LeftoverFileShares`); without one it never happens
  (`Pools.FilesStayDistinct`).
* Choosing another OpenVPN subnet with `ovpn-init --subnet` checks only for overlap with WireGuard. It is
  safe for every table exactly when it names the same network again, or the current one has no room for a
  client; any other choice already fails after one user has been created (`Pools.ChangeSafeExactly`).
* Import looks users up outside its own transaction and checks the unique indexes after every
  statement: a new name given twice is refused, and so is a file that swaps two users' addresses, even
  though its result would be fine (`Migration.NewNameTwiceFails`, `Migration.SwapRefused`,
  `Migration.SucceedsExactly`).

## Model

| member | source | states |
|---|---|---|
| IPv4.NextIP | main.go:415-426 | carrying from the last byte to the first adds one, modulo 2^32 |
| IPv4.MaskValue | subnet.go:42-49 | the byte-wise mask of a /p block and its complement are, as words, 2^32 − 2^(32−p) and 2^(32−p) − 1 |
| IPv4.BytesAreWords | subnet.go:42-49 | combining four bytes bit by bit is combining the 32-bit words bit by bit |
| IPv4.ApplyMaskIsNetwork | subnet.go:58 | masking the four bytes rounds the address down to a multiple of the block size |
| IPv4.BroadcastAddr | subnet.go:42-49 | the bytes computed one by one are the last address of the block |
| IPv4.ContainsIsHas | subnet.go:180 | the mask-and-compare membership test decides membership in the address range |
| IPv4.NestedOrDisjoint | subnet.go:180 | any two CIDR blocks are nested or disjoint |
| IPv4.NetsOverlapExact | subnet.go:180 | testing the two base addresses is true exactly when the address sets intersect |
| IPv4.HostAllocatable | subnet.go:31-40 | true exactly for addresses inside the block that are neither its ends nor end in .0 or .255 |
| IPv4.NextFreeHost | subnet.go:52-66 | returns the lowest allocatable unused address, and none only if all are used |
| IPv4.CapacityExact | subnet.go:28-40 | a /p pool has exactly 254·2^(24−p) allocatable hosts for p up to 24 and 2^(32−p) − 2 beyond (none for /31 and /32) |
| IPv4.FreeHostExists | subnet.go:52-66 | the search succeeds whenever fewer addresses are in use than the pool holds |
| IPv4.WideningKeepsHosts | subnet.go:72-89 | the wider block contains the old one and every allocatable host stays allocatable |
| Planner.WidenCidrMeaning | subnet.go:72-89 | fails only outside /16../30, changes only what is narrower, and both forms name the block around the old one |
| Planner.PoolDevs | subnet.go:184-199 | the devices named explicitly or holding a route inside the pool, and no others |
| Planner.SubnetConflicts | subnet.go:203-216 | lists, once each, exactly the foreign routes that the wide pool meets and the old one did not |
| Planner.PoolConflicts | subnet.go:390-401 | empty exactly when no foreign route and neither form of the other pool is met |
| Planner.ServerMove | subnet.go:405-410 | reports a move exactly when the network address, and so the server on network + 1, changes |
| Planner.BuildExpandPlan | subnet.go:363-423 | the plan widens what is narrower and carries conflicts exactly where applying it would do harm; fails only on bad input |
| Planner.Decide | subnet.go:488-500 | --auto goes on exactly if some widening is clean and keeps exactly the clean ones; a manual run needs all of them clean |
| Planner.ExpandSubnet | subnet.go:452-500 | a pool is up for widening exactly when its prefix is longer than asked for, and becomes the block of that prefix around it; --auto widens exactly the pools clear of foreign routes and of the other pool, a manual run all of them if all are clear; otherwise nothing to do, refused or skipped |
| Planner.WideMeans | subnet.go:72-89 | the planned form of a pool, spelled out |
| Planner.HarmlessMeans | subnet.go:583-614 | making any harmless widenings leaves the pools disjoint, with servers and hosts where they were |
| Planner.ServersAndHostsStay | subnet.go:72-89 | applying clean widenings keeps both server addresses and every address of the old pools |
| Tokenizer.SplitRule | subnet.go:220-243 | the loop over characters computes the token list of the recursive lexer |
| Tokenizer.PiecesRoundTrip | subnet.go:220-243 | a line of tokens written in pieces, quoted or plain, with any blanks between and behind, is read as exactly their contents |
| Tokenizer.TokensRoundTrip | subnet.go:220-243 | reading back tokens written with any blanks, quoted where needed, yields exactly those tokens |
| Firewall.ScanRule | subnet.go:262-273 | the token loop returns the rule with the old pool replaced, whether it occurred, and whether an occurrence was negated |
| Firewall.WidenRuleArgs | subnet.go:253-289 | the reversed commands and the manual list that the listing calls for, positions counted per chain |
| Firewall.ReverseInPlace | subnet.go:285-287 | swapping from both ends reverses the list |
| Firewall.Kernel.Insert | subnet.go:309-313 | inserts before the given position, and refuses an impossible one without changing anything |
| Firewall.Kernel.WidenTable | subnet.go:297-314 | after the check-and-insert loop the table is what running the command list makes of it |
| Firewall.Kernel.WidenFirewall | subnet.go:292-315 | each of filter, nat and mangle that is listed ends with all its chains mirrored, every other table as it was; left to the operator are exactly the rules of these tables that exclude the old pool |
| Firewall.FirewallMirrorsTables | subnet.go:292-315 | what that says of each table: filter, nat and mangle mirrored if listed, others untouched |
| Firewall.RunFromIsMirror | subnet.go:246-289 | last-first execution keeps every precomputed position right, however the listing mixes the chains |
| Firewall.CommandsMirrorEveryChain | subnet.go:246-289 | running all commands performs the mirroring on every chain and leaves the set of chains alone |
| Firewall.PositionsAlwaysFit | subnet.go:254-287 | no insert is ever refused for its position |
| Firewall.OnePassExactlyWhenFresh | subnet.go:305-309 | the guarded run equals the one-pass copy-before-each-hit exactly when no copy is there yet and no two rules share one |
| Firewall.OnlyPlainRulesCopied | subnet.go:262-283 | what a chain holds afterwards: its rules and the copies of just those that name the old pool and exclude it nowhere |
| Firewall.MirrorIdempotent | subnet.go:291-309 | mirroring twice is mirroring once |
| Firewall.SecondRunInsertsNothing | subnet.go:291-309 | a second full run, on a listing of the result of the first, changes nothing |
| Listing.WrittenTableLists | subnet.go:253-256 | a table written out chain by chain, tokens quoted where needed, is read back as exactly its rules, if no line ends in white space that quoting leaves bare |
| Verdict.ParseSubst | subnet.go:262-273 | copying a rule changes its address tests, other matches and target token by token and keeps its structure |
| Verdict.DepthSuffices | subnet.go:246-252 | with acyclic jumps a walk is never cut short by the depth bound |
| Verdict.CopyActsAlike | subnet.go:246-252 | for an old-side packet the copy matches exactly when its original does, and acts the same |
| Verdict.OldTrafficUntouched | subnet.go:246-252 | whichever copies were inserted in whichever chains, packets of the old pool or from outside the new one fare as before |
| Verdict.MirrorIsMirrored | subnet.go:301-309 | what the guarded run leaves is the original chain with copies directly before some hit rules |
| NewRange.CopyServesNewRange | subnet.go:262-273 | on the added range the copy does what its original does for the stand-in hosts |
| NewRange.SkippedByCheck | subnet.go:305-308 | the check for a rule's copy succeeds exactly when the chain holds that rule or a later rule had the same copy |
| NewRange.MirrorPlaces | subnet.go:305-309 | the chain the run leaves, rule by rule: every rule behind its copy, except where the copy was skipped |
| NewRange.OrderIsCheckable | subnet.go:305-308 | looking at the chain's own tokens is enough to tell whether any skipped copy is overtaken |
| ServedTables.PacketIsServed | subnet.go:246-289 | a packet of the added range that overtakes no copy meets the outcome its stand-in met in the original chains, through jumps, gotos and returns |
| ServedTables.NewRangeEquivalence | subnet.go:246-289 | with no copy overtaken, every packet does |
| ServedTables.NewRangeAfterRun | subnet.go:292-315 | the same for the tables the command run leaves, starting from a listing |
| ServedTables.OldTrafficAfterRun | subnet.go:292-315 | old traffic fares as before in the tables the command run leaves, in order or not |
| ServedTables.OvertakenParts | subnet.go:305-308 | for every overtaken copy, a reading of the tokens in which a packet of the added range and its stand-in are decided differently |
| ServedTables.FirewallKeepsOldTraffic | subnet.go:296 | old traffic fares as before in each of the three tables the whole run has widened |
| ServedTables.FirewallServesNewRange | subnet.go:296 | and the added range as its stand-ins did, where no copy is overtaken |
| ServedTables.CopiesInFrontSuffice | subnet.go:305-308 | skipped copies that stand in front of their rules are never overtaken |
| ServedTables.FirstRunIsFresh | subnet.go:246-252 | where no rule names the new pool and no rule to copy occurs twice, no check succeeds and no copy is overtaken |
| ServedTables.ServedAgain | subnet.go:291 | a table that serves the added range still does after the run is repeated |
| NewRange.NoNegatedTest | subnet.go:264-272 | the two-tokens-back scan finds every excluded address test on the old pool |
| CopyLimits.ServedExactly | subnet.go:246-309 | the added range is served, in every reading of the tokens and for every packet, exactly when no chain has a skipped copy that is overtaken |
| CopyLimits.HarmlessExactly | subnet.go:246-289 | a copied rule is harmless to old traffic, in every context, exactly when it names the pool only as an address or has no target |
| CopyLimits.NetmapCopyIsHarmful | subnet.go:262-273 | a rule translating into the old pool gets a copy that is not harmless |
| BlockTables.PacketServedExactly | subnet.go:246-309 | with network tokens read as blocks: a packet of the added range is served after the run, whatever the other tokens mean, exactly if the check finds no skipped copy that it overtakes |
| BlockTables.OldTrafficExactly | subnet.go:246-309 | with network tokens read as blocks: the run leaves old traffic alone, whatever the other tokens mean, exactly if from no old-side addresses other targets are met first than before |
| BlockTables.SafeMeetsAlike | subnet.go:246-289 | chains whose copied rules name the pool only as an address, or have no target, pass that check |
| CopyLimits.DistinctRulesNotEnough | subnet.go:305-308 | three distinct rules without copies of which two share one: only the last is copied |
| CopyLimits.SharedCopyIsOvertaken | subnet.go:305-308 | that shared copy is overtaken by the rule in between |
| CopyLimits.SharedCopyDropsNewRange | subnet.go:305-308 | there a packet of the added range is dropped where its stand-in was accepted |
| Enforcement.Enforcer.SetMember | enforce.go:124-133 | an address is added or deleted, an empty one skipped; nothing else in the set changes |
| Enforcement.Enforcer.BillWireGuard | enforce.go:92-107 | writes the usage columns of one row from the snapshot and the listing, and no other row |
| Enforcement.Enforcer.BillOpenVPN | enforce.go:108-120 | the same for the OpenVPN columns |
| Enforcement.Enforcer.SyncPeer | enforce.go:121-136 | one user is blocked exactly if disabled, past his expiry, or with a quota reached by the usage of both protocols; his two addresses are in the set exactly then, others are left alone |
| Enforcement.Enforcer.Reconcile | enforce.go:138-157 | the sweep removes exactly the members that no user claims |
| Enforcement.Enforcer.EnforceTick | enforce.go:82-158 | one pass bills every row, flags exactly the disabled, the expired and those over quota, and leaves the set with the addresses whose last claimant is blocked, whatever it held |
| Enforcement.StaleIPs | enforce.go:188-196 | the members of the list that are not wanted, in order |
| Enforcement.LastClaimMeaning | enforce.go:124-133 | an address ends up in the set exactly when the last row claiming it is blocked |
| Enforcement.ExactBlockSet | enforce.go:123-157 | the set is exactly the blocked users' addresses unless a blocked user is overtaken by an unblocked one sharing an address |
| Enforcement.DistinctMeansExact | enforce.go:123-157 | distinct addresses are exactly what makes the set right for every combination of blocked users |
| Reset.ReadResetCounters | reset.go:19-70 | the baseline: the last row of a listed key, the recorded reading of an unlisted one, the bytes of the OpenVPN session and zero without one; an error exactly when a source that is needed cannot be read or has a bad row of the user's |
| Reset.RechargePeer | reset.go:74-132 | refused exactly for an unknown user, a bad request or unreadable counters, changing nothing; otherwise one row changes: quota set, then added to; by a reset usage zero and readings at the baseline |
| Reset.ResetOfUnconnected | reset.go:56-67 | a reset user without a session is billed his next session in full |
| Reset.ResetThenTick | reset.go:112-119 | after a reset the next pass bills exactly what the counters gained since the baseline |
| Reset.CliResetRebills | main.go:1480-1482 | after the command-line reset the next pass bills the whole live counters, which is right only at zero; OpenVPN usage stays |
| Metering.StepsKeepSound | enforce.go:92-120 | traffic, restarts, readings and resets keep: real bytes = billed + unread + lost |
| Metering.LostOnlyByRestart | enforce.go:93-104 | readings lose nothing, bytes are lost only through restarts, and never more is billed than flowed |
| Machine.MergeWritesAll | enforce.go:103-136 | over a row whose usage, keys and flag are as in the snapshot, a pass's absolute writes amount to the whole row computation, and leave administration and a new OpenVPN identity alone |
| Machine.StepKeepsBalance | enforce.go:82-158 | every step of every process keeps the rows in balance with the counters' accounts |
| Machine.RunsKeepBalance | reset.go:72-77 | the balance holds after any interleaving of traffic, restarts, passes, recharges, panel writes, creations, attachments and deletions |
| Conservation.UsageConserved | enforce.go:92-120 | over any run from any balanced state: real bytes since the last reset = used + not yet read + lost, and used never exceeds what flowed |
| Conservation.TruthIsTraffic | enforce.go:92-120 | the account of real bytes grows by exactly the traffic of the run |
| Conservation.LostIsHidden | enforce.go:93-104 | over any run without a new baseline, the bytes lost are exactly those that were unread at a restart or covered up by traffic after one |
| Conservation.ExactUnlessHidden | enforce.go:92-120 | from an account without losses, everything that flowed is billed or still readable exactly if the run hid nothing |
| Conservation.WhatHides | enforce.go:93-104 | a restart right after a reading hides nothing, and traffic hides something only behind a restart |
| Conservation.ResetIsNotLost | reset.go:72-77 | after any run from a recharge's sample on, the user owes for exactly the bytes that flowed since, none twice and none of the old period |
| Conservation.CliResetStandsExactly | main.go:1480-1482 | a command-line reset at any moment stands, until the next snapshot or purposeful write, exactly if the pass under way has not yet to write this user or its bill in hand is the reset one; otherwise that bill is put over it |
| Conservation.ResetBill | enforce.go:92-107 | the bill in hand is the reset one only for a user without usage whose counters stand at zero |
| Conservation.CliResetIsUndone | main.go:1480-1482 | a run from the start, for any number of bytes, after which the reset is undone by the pass under way |
| Conservation.WritesCommuteWithPass | api.go:448-500 | quota, expiry and enabled writes commute with every write of a pass |
| Quiescence.StepKeepsSettling | api.go:448-500 | every step keeps: rows written since the last snapshot have a handler whose own pass is still to come; other flags are right; the set has the blocked addresses less the late and plus the stuck ones |
| Quiescence.RunsKeepSettling | api.go:419-422 | so does every run |
| Quiescence.StartSettles | enforce.go:82-158 | a system before its first pass is in that invariant |
| Quiescence.QuietMeansEnforced | api.go:415-500 | with the lock free and no handler pending, every flag is what the current row calls for at the last pass's clock; so is every set membership, exactly unless a blocked user's address is late or an unblocked user's is stuck |
| Quiescence.StuckIsLeft | api.go:385-393 | an address is stuck exactly if, with no snapshot since, a user was deleted who was blocked with it, or whom the pass under way finds blocked |
| Quiescence.LateIsAttached | api.go:504-517 | an address is late exactly if it was attached since the last snapshot |
| Quiescence.ReissuedExactly | api.go:385-393 | between passes, a new user holding a former user's address is unblocked, and in the set exactly if the former one was blocked with it or it was stuck before |
| Quiescence.ReissuedAddressStaysBlocked | api.go:385-393 | a run from the start after which an unblocked user is in the block set |
| Quiescence.AttachedAddressIsOpen | api.go:504-517 | a run from the start after which a blocked user has an address outside the block set |
| Decisions.BlockedExactly | enforce.go:62-78 | over every run of a billing period: a user nobody is writing is blocked exactly if disabled, expired, or with a quota that the bytes flowed on both protocols reach, less those unread or hidden |
| Decisions.QuotaBlocksExactly | enforce.go:74-76 | with all read and nothing hidden, exactly if the bytes flowed reach the quota |
| Decisions.AdministrationEnforced | enforce.go:62-78 | disabled and expired users are blocked, enabled ones without quota and expiry are not, and the set has the addresses of just the blocked, but for late and stuck ones |
| Decisions.WritesAreEnforced | api.go:448-500 | what a handler writes stays in the row until written again; once its own pass is over, a user switched off or expired is blocked and in the set |
| Decisions.UsedIsFlowed | enforce.go:92-120 | usage in the row is what flowed in the period, less what is unread or hidden |
| Decisions.ResetStartsPeriod | reset.go:112-119 | a recharge with reset begins a new period |
| Decisions.ResetReadsAll | reset.go:56-67 | it leaves nothing unread on the counters it sees, connected to OpenVPN or not |
| Stability.BlockStays | enforce.go:62-78 | once a pass finds a user blocked, every later pass leaves him blocked and his addresses in the set, until his row is changed on purpose |
| Stability.UninterruptedPass | enforce.go:82-158 | the steps of one pass without interruption do to table and set what the sequential pass does, and nothing is late or stuck after them |
| Pools.InvMeansDistinct | main.go:221-222 | under the invariant no tunnel address is shared, within a pool or across the two |
| Pools.PoolsMakeBlockingExact | enforce.go:123-157 | a pass over a table kept by the pool rules leaves exactly the blocked users' addresses |
| Pools.ExpandKeepsInv | subnet.go:583-614 | widening any clean part of a plan keeps every address valid and gives existing client files the new mask |
| Pools.ChangeSafeExactly | ovpn_pki.go:420-427 | changing the subnet is safe for every table exactly when the network stays the same or had no room for a client; otherwise one created user already breaks the invariant |
| Pools.StepKeepsInv | main.go:402-413 | picking, inserting, attaching, detaching, deleting, widening and setting up keep every address valid in its pool, off the server's, and unique |
| Pools.RunsKeepInv | main.go:221-222 | so does every run, with picks and inserts of several creations interleaved |
| Pools.AddressesNeverMove | ovpn_pki.go:333-384 | whoever is still in the table after a run has the name and addresses he had, unless OpenVPN was detached |
| Seats.StepKeepsJoint | api.go:327-393 | a creation, attachment or deletion by the pool rules is a step the concurrent machine can take, and both go on speaking of the same users |
| Seats.RunsKeepJoint | main.go:221-222 | over every run of both together: addresses valid and unique, enforcement settling, the same users in both |
| Pools.FilesStayDistinct | ovpn_pki.go:338-374 | over every run whose deletions know the directory, every client file belongs to its user and no two carry one address |
| Pools.LeftoverFileShares | ovpn_pki.go:369-374 | after one deletion that does not know the directory, the next user shares his address with the leftover file |
| Accounts.Panel.NextFreeIP | main.go:402-413 | the lowest allocatable address that is neither the server's nor in a row; none exactly if there is none |
| Accounts.Panel.OvpnNextFreeIP | ovpn_pki.go:193-209 | the same in the OpenVPN pool, whose server is on network + 1 |
| Accounts.Panel.InsertWireGuard | api.go:372-377 | inserts exactly for a new named user with a free address and an unused key; the row has quota, expiry and the three keys each in its column, is enabled and unused, and is a pick and an insert of the pool machine |
| Accounts.Panel.CreateWireGuard | api.go:372-378 | then renders, which fails exactly while a live peer is in no row, and leaves the row |
| Accounts.Panel.Render | main.go:445-470 | refused exactly when a live peer would be dropped without force; otherwise the file is rendered from the table and still names the same pool |
| Accounts.Panel.CreatePeer | api.go:327-382 | when it succeeds, when it leaves a row though it fails, and every column of the row it inserts: trimmed name, quota, expiry, keys or certificate, the lowest free address, enabled, not blocked, nothing used; the row is one with which the joint machine can take an arrival |
| Accounts.Panel.CreateOvpnOnly | ovpn_pki.go:351-360 | succeeds exactly for a new named user with a certificate authority and a free address; a failing attach takes the row and any client file out again; a success is one step of the pool machine, with the row's columns given |
| Accounts.Panel.Attach | ovpn_pki.go:333-345 | writes the client file and the row with the same new lowest free address, name, certificate and key, or changes nothing when the pool is full |
| Accounts.Panel.AddOvpn | api.go:504-517 | refused exactly without a certificate authority, user, free identity or free address |
| Accounts.Panel.Detach | ovpn_pki.go:376-384 | for known users only: removes the client file, clears identity, certificate and OpenVPN usage, and nothing else |
| Accounts.Panel.DeletePeer | api.go:385-393 | removes the row, the client file when the directory is known, and the user's entry in wg0.conf |
| Accounts.Panel.RewriteFiles | subnet.go:600-614 | existing files of OpenVPN users get their address with the new mask; other files stay and none is created |
| Accounts.Panel.ApplyPlan | subnet.go:516-521 | the configured pools become the planned ones; applying the kept part of a plan is one widening step of the pool machine |
| Accounts.Panel.InitOvpn | ovpn_pki.go:401-427 | refused exactly when a subnet being chosen meets the WireGuard pool; a routine run changes nothing |
| Text.TrimSpaceMeans | api.go:329 | trimming cuts white space off both ends, all of it and nothing else |
| Numbers.IntRoundTrip | ovpn.go:92-93 | reading a printed number gives it back, cut off at the largest signed 64-bit value |
| Numbers.ParseIntMeans | ovpn.go:92-93 | any text of digits, signed or not, is read as the nearest signed 64-bit number; a text that does not begin like a number as 0 |
| Numbers.WrapMeans | ovpn.go:94 | sums are the signed 64-bit numbers that differ from the true ones by a multiple of 2^64 |
| OvpnStatus.Tally.Add | ovpn.go:87-95 | adds the bytes to the trimmed name's entry with 64-bit wrap-around; empty and UNDEF names are skipped |
| OvpnStatus.ParseOvpnStatus | ovpn.go:67-85 | the loop with its section flag computes the fold over the rows of the text |
| OvpnStatus.Version2Usage | ovpn.go:67-85 | version-2 output yields, per authenticated name, the sum over its sessions; the rows around them, whatever their columns, never contribute |
| OvpnStatus.UsualRowsIgnored | ovpn.go:67-85 | title, time (with one column or two), header, routing, queue and end rows never contribute |
| OvpnStatus.Version1Usage | ovpn.go:67-85 | version-1 output yields the same for the sessions before the first one named like an end of section |
| OvpnStatus.VersionsAgreeExactly | ovpn.go:54-85 | the two versions of one status agree exactly when no client is named like an end of section, with either line ending |
| WgConf.InterfaceHead | main.go:339-377 | the head is the lines before the first peer marker, [Peer] or client heading; the address is the last one in it that parses |
| WgConf.AddressRead | main.go:352-361 | an address line, in any case and with more behind a comma, gives its first address to the parser; the last one that parses counts |
| WgConf.RenderPeerSection | main.go:386-400 | the builder loop writes the marker line and one entry per user with a key |
| WgConf.ConfFile.RenderConf | main.go:445-470 | refused exactly when a live peer would be dropped without force or the head has no address; otherwise the file is head plus section |
| WgConf.RenderKeepsHead | main.go:460-461 | the head of a rendered file is the head it was rendered from, trailing newlines cut to one |
| WgConf.RenderKeepsAddress | main.go:339-367 | the server's address read from a rendered file is the one read from the file before |
| WgConf.RenderAgain | main.go:460-461 | rendering over a rendered file gives what rendering over the original gives; the same rendering twice changes nothing |
| ConfImport.Importer.Flush | main.go:617-642 | stores the collected peer unless name, key or address is taken, and starts over |
| ConfImport.Importer.Import | main.go:643-662 | the scan with flushes computes the fold over the lines, and breaks off where the key of a nameless peer is too short |
| ConfImport.OneClient | main.go:643-661 | the lines of one client, under either heading, store the client before it and leave this one collected |
| ConfImport.ImportStores | main.go:615-662 | peers under headings of either kind are stored one after the other unless name, key or address is taken |
| ConfImport.StoredMeans | main.go:629-633 | what that leaves: no two new entries share name, key or address, and nobody is missing but for that reason |
| ConfImport.ImportInOrder | main.go:615-662 | with nobody taken, one entry per peer, in order, with name, key, preshared key, address and what the older database had under the key |
| ConfImport.ImportIncomplete | main.go:617-620 | a peer with only a key or only an address is not stored |
| ConfImport.ImportNameless | main.go:621-623 | a peer without a heading is named after six characters of his key; a shorter key breaks off |
| ConfImport.NamelessAreLost | main.go:643-661 | of several peers without headings only the last is stored |
| ConfImport.ImportOfRendered | main.go:615-662 | importing a rendered file appends exactly the users with keys, in order, with name, keys and address |
| PeerFile.DottedUnique | main.go:221-222 | different addresses have different texts |
| PeerFile.DottedReads | main.go:386-400 | the four numbers of the text are the address in base 256 |
| PeerFile.TableRoundTrip | main.go:386-400 | a table kept by the pool rules is recovered from its rendered file, as far as the file carries it |
| Migration.MigrationFromDB | migration.go:92-121 | version 1 and one record per row, in order, each column in its own field, without id and timestamps |
| Migration.Db.ImportMigration | migration.go:308-349 | the transaction loop computes the statement-by-statement outcome; on any failure table and id counter are unchanged |
| Migration.ImportMerges | migration.go:308-349 | a success leaves the old rows overridden by the file under their ids, then the newcomers; created + updated = records; unique indexes hold |
| Migration.SucceedsExactly | migration.go:315-346 | succeeds exactly when all users have names and the unique indexes accept the table after every single user |
| Migration.NewNameTwiceFails | migration.go:319 | a name the table does not have may not occur twice in a file |
| Migration.ExportImport | migration.go:92-121 | importing an export into an empty table succeeds exactly when all users have names, and recovers every column but the ids |
| Migration.ImportOwnExport | migration.go:308-349 | importing a table's own export succeeds exactly when all users have names, and changes no row |
| Migration.SwapRefused | main.go:221-222 | a file that swaps two users' addresses is refused although its final table would be acceptable |

## Left out

- HTTP routing, JSON and zip encoding, TLS, tokens, login, HTML, QR codes, menus, installation: no hard property.
- Key and certificate generation, PEM, file modes, service restarts: keys and certificates are parameters.
- Calls to `wg`, `ip`, `iptables`, `ipset`, `systemctl`: only their effect is modelled, as steps that succeed or, for an iptables insert, may be refused; a failing listing of the ipset (then nothing is swept) is not.
- Failing database calls: every statement works except where a unique index refuses it.
- The text of `wg show` and `ip route` output and of `ipset list -o save`: passes get parsed listings.
- Which kernel matches a token stands for: `Verdict.Env` interprets address tokens, the other match tokens of a rule as a whole, and targets; the packet is not changed on the way (no MARK, no NAT of the packet itself), and quotes inside quoted tokens are not modelled.
- `-j` and `-g` end the matches of a rule, as in an iptables listing.
- The order of conflict strings, warnings, prompts and `--dry-run`.
- Free-text replacement in the interface head and regular-expression port rewriting: string work without a hard property.
- Parsing dotted addresses: a CIDR in a configuration is a parsed value or not an IPv4 CIDR; `WgConf.InterfaceHead` takes the parser as a parameter.
- Address columns hold an address or nothing; other text that an import file could put there is not modelled.
- Floating-point gigabytes, quota sums beyond 64 bits and RFC 3339 text: amounts are integers in the accepted range, expiry is an optional time.
- Time stamps and the notes column.
- Detaching OpenVPN and importing, which touch usage columns outside the lock, are not steps of the concurrent machine; the command-line reset is treated apart (`Conservation.CliResetStandsExactly`). Neither are quota and expiry changes from the command line, which run no pass of their own.
- In the concurrent machine the keys and names of a new or newly attached user are in no listing a pass has already read, so a deleted user's name taken again while his old OpenVPN session is up is not modelled; new users are not blocked at creation.
- Several sessions per common name appear in the status reader only; the concurrent machine has one counter per user, as the rendered server configuration allows one.
- Attaching OpenVPN is one step in the pool machine.
- CopyLimits.HarmlessExactly: assumes at most one source and one destination test in a rule, as iptables does, and pools that are neither single addresses nor everything.
- CopyLimits.ServedExactly: reads every network token in every way (`BlockTables.PacketServedExactly` takes them as blocks), and is about rules that name the pool only as an address and exclude it nowhere; others are the subject of `CopyLimits.HarmlessExactly` or left to the operator.
- A configuration that names no OpenVPN subnet although the certificate authority exists (set-up always saves both).
- OvpnStatus.VersionsAgreeExactly: names are taken without surrounding blanks; with blanks two names may share an entry and agreement can be an accident.
- ConfImport.ImportInOrder, ConfImport.ImportOfRendered: the head must not itself contain a line starting with PublicKey; names, keys and addresses are non-empty, trimmed and on one line. Imported users are enabled; that column is not modelled.
- The IPv6 part of an Address line, and blocks wider than IPv4.
- Listings of ghost and orphan users, version comparison, path normalisation: easy members.
