# Caspian: a model of its network changes and the promises around them

Caspian turns a small computer into a hotspot whose clients leave only through a
proxy tunnel. To do that it changes the machine it runs on: firewall, routes,
radios, daemons, a tunnel device. This project models the parts of it that decide
what those changes are, undo them, and keep them from going wrong half way, and
proves what each of those parts promises.

`dafny verify dfyconfig.toml` checks everything.

## What is modelled

**The undo journal and its applier** (`Commands`, `Journal`, `World`, `Protocol`,
`Applier`; results in `ReplayLaws`, `Coverage`, `FailClosed`, `Endings`,
`Restoration`, `RestorationLimits`, `Retries`, `Reruns`, `SkipCache`). A step's inverse is on disk
before the step runs. The world is a journal file made of lines, the last of which may be torn or lack its newline, and a
kernel: the ruleset in force, every other object, and the changes still owed an
inverse. An environment, a function of the clock, decides how every effect ends: a
command succeeds, fails with some text having landed or not, or the process dies; a
write is whole, torn, refused or fatal. A dead process has no further effect, so a
crash at any effect is one value of the environment, and a statement for all
environments is a statement for all crash points. `Protocol` gives the algorithms as
functions; `Applier` gives them as the loops and the object of the source and proves
them equal.

**The macOS SOCKS steps** (`SystemSocks`, and through the journal `SocksJournal`): a
client of the journal whose inverses work only because of their order.

**The generated ruleset** (`Nftables`): chains of rules with first-match meaning over
arbitrary packets, and exactly which packets each chain accepts.

**The planner** (`Subnet`, `Combination`, `Radio`, `Ladder`, `Planner`): address
ranges, the backtracking search over interface combinations, the order in which
radios are preferred, channel and band, and the takeover.

**The redactor** (`TailPatterns`, `Redact`, `Redaction`, `RedactionLimits`): the two tail patterns, the
two shapes, and the splitting into lines and segments.

**The engine's lifecycle** (`Engine`), **the hotspot supervisor** (`Supervisor`) and
**a proxy link** (`Link`).

## Where a promise fails as the code stands

Each of these has a lemma with the failing input and one that says when the promise
holds: exactly, except for the redactor, where it goes one way.

- A journal whose last line has no newline swallows the next record
  (`Journal.TornFirstRecordSwallowsTheNext`, `Journal.AppendIsReadBackIff`,
  `Coverage.CoverageNeedsTheNewline`, `RestorationLimits.RestoredIffNewline`).
- An inverse can be left live on file for a change that was not made: the record
  that retracts it did not reach the file (`RestorationLimits.LostRetraction`), or the begin
  record did while flushing it failed or the process died, so that the step was never
  run (`RestorationLimits.UnflushedBegin`), or the command itself failed or was cut short
  without its change landing. A teardown or recovery then undoes what was there
  before and reports no failure (`RestorationLimits.SomebodyElsesRoute`). In every other
  session the machine is restored, and in these exactly when that inverse is harmless
  (`Restoration.TeardownRestores`, `Restoration.RecoveryRestores`).
- A recovery that finishes with an inverse failing puts it back on file, and the next
  runs it after inverses it used to come before (`Reruns.OutOfOrder`). Recoveries lead
  to the machine as it was found exactly when the inverses settle
  (`Reruns.LeadsBackExactly`), as they do where they commute and may be repeated
  (`Reruns.OrderlessSettles`).
- A ruleset load that fails with the text "File exists" is read as nothing to do
  (`FailClosed.RefusedLoadLeavesTheBoxOpen`). A load reported a success leaves its
  ruleset in force exactly when it already was or the load was not refused so
  (`FailClosed.LoadedIff`), and the guarantee over runs asks that of the first load of
  each start only.
- The skip cache is read once per call, so one call naming several rulesets can end
  with the wrong one (`SkipCache.CutAndRestoreInOneCall`,
  `SkipCache.OneCallSeveralRulesets`), and a load whose result
  could not be recorded leaves it stale (`SkipCache.UnrecordedLoad`).
- A SOCKS bypass list holding only the word the tool prints for "no list" is not put
  back (`SystemSocks.SocksRoundTrip`).
- A refused start deletes an interface of a configured name that was there before
  (`Engine.FailedStart`, `Engine.SomebodyElsesDevice`).
- A soft block cleared by a start is not put back when the command that cleared it
  reported a failure, the reading after it or the reading before putting it back
  fails, or a block does not act (`Supervisor.RadioRoundTrip`).
- A daemon that could not be stopped for a new configuration is taken, at the next
  start, for one that runs it (`Supervisor.StaleDaemonIsKept`). `Supervisor.Start`
  states exactly when each daemon it leaves serves the plan.
- A marker in a message can hide a key from the redactor until its second run
  (`RedactionLimits.MarkerHidesAKey`; without a marker, `Redaction.Idempotent`).
- A trojan link whose security is spelled as only the engine reads "none" is dialled in
  the clear (`Link.NameReadAsNone`, `Link.NeverInTheClear`).

## Model

| member | source | states |
|---|---|---|
| Commands.KeyIdentity | internal/netcfg/recorder.go:48-87 | two commands on one resource have one key exactly when they carry the same standard input |
| Commands.NonZeroKey | internal/netcfg/recorder.go:66-87 | no command that does something has the empty key, so a missing cache entry is never mistaken for one |
| Journal.LoadJournal | internal/netcfg/journal.go:223-271 | the loop over lines with a table and a sort yields the named entries of the fold, a torn last line dropped |
| Journal.LoadMembers | internal/netcfg/journal.go:223-271 | what is loaded is exactly the named entries of the fold, in strictly increasing order of sequence number |
| Journal.LoadBegin | internal/netcfg/journal.go:141-160 | on a file that ends in a newline, a begin record with a fresh number adds exactly its entry, last |
| Journal.LoadPhase | internal/netcfg/journal.go:162-189 | a later record for the newest entry changes that entry's phase and nothing else |
| Journal.TopOf | internal/netcfg/journal.go:108-133 | the counter starts at or above every number in use |
| Journal.AppendIsReadBackIff | internal/netcfg/journal.go:108-153 | a record appended whole is read back exactly when the file ended in a newline, or when it changes nothing |
| Journal.TornFirstRecordSwallowsTheNext | internal/netcfg/journal.go:108-153 | after a crash inside the very first write, the next begin record is lost; on a clean file it is not |
| Journal.RewriteThenLoad | internal/netcfg/journal.go:278-318 | rewriting entries in any order and loading gives exactly those entries, as begun, in sequence order |
| Applier.CurrentState | internal/netcfg/apply.go:217-261 | the loop computes the cache that the journal's entries stand for |
| Applier.UndoOne | internal/netcfg/apply.go:386-428 | one entry reversed, already gone, failed or held, with its record, as the function the laws are about |
| Applier.Replay | internal/netcfg/apply.go:340-384 | the two passes and the remainder turned round equal the replay the laws are about |
| Applier.Recover | internal/netcfg/apply.go:296-309 | recovery equals the function the laws are about, error paths included |
| Applier.Applier.RunStep | internal/netcfg/apply.go:165-212 | write-ahead record, run, outcome record, against the specification of one step |
| Applier.Applier.Apply | internal/netcfg/apply.go:125-215 | the loop over steps on the object's own state equals the specification, results and new state |
| Applier.Applier.Teardown | internal/netcfg/apply.go:274-287 | replay, then journal rewritten or removed, equals the specification |
| ReplayLaws.ReplayConserves | internal/netcfg/apply.go:340-428 | every entry needing undo is reported once, the firewall's last; the remainder is failed plus held, empty iff nothing failed |
| ReplayLaws.RemainingFacts | internal/netcfg/apply.go:340-384 | the remainder holds entries of the journal that needed undoing, each once |
| ReplayLaws.RewrittenAsks | internal/netcfg/journal.go:278-318 | a rewritten journal loads as exactly the remainder, in order, each entry still needing undo |
| ReplayLaws.RecoverNeverAsksMore | internal/netcfg/apply.go:296-309 | however recovery ends, crash included, it asks for nothing it did not ask for before; finished cleanly, the file is gone |
| ReplayLaws.OutstandingNeverGrows | internal/netcfg/apply.go:296-309 | over any number of recoveries, finished or cut short, the outstanding set never grows |
| Coverage.RunStepKeepsCover | internal/netcfg/apply.go:165-212 | one step keeps every change that may have landed filed under its own number, whatever fails and wherever it dies |
| Coverage.ApplyKeepsCover | internal/netcfg/apply.go:125-215 | any list of steps keeps it |
| Coverage.WriteAheadCoverage | internal/netcfg/apply.go:165-212 | at every crash point, torn record included, loading yields a live entry for every change that may have landed and has an inverse |
| Coverage.CoverageNeedsTheNewline | internal/netcfg/journal.go:117-133 | on a file ending in a fragment, a successful apply leaves its change in force with nothing on file |
| Coverage.StepIsExact | internal/netcfg/apply.go:165-212 | with records written, a step leaves its begin record and the one record its outcome calls for |
| Coverage.ApplyIsExact | internal/netcfg/apply.go:125-215 | when Apply returns, the journal has grown by one entry per step that ran, live unless the step is known to have changed nothing; skipped steps have none |
| FailClosed.RunStepKeepsFw | internal/netcfg/apply.go:165-212 | no step takes a ruleset away, and a firewall step reported done leaves its own in force |
| FailClosed.FirstPassAccounts | internal/netcfg/apply.go:340-371 | after the first pass every other entry is reversed, or kept with a failure counted |
| FailClosed.SecondPass | internal/netcfg/apply.go:372-384 | the firewall's inverse runs only once nothing else may be in force; after a failure nothing runs |
| FailClosed.SweepKeepsSound | internal/netcfg/apply.go:274-309 | replaying and putting the remainder back keeps the guarantee however far it gets |
| FailClosed.NextKeeps | internal/netcfg/apply.go:125-215 | each event of the service, boot, start, further apply, cut or restore, stop, crash, keeps the run's invariant |
| FailClosed.LoadedIff | internal/netcfg/apply.go:183-212 | a firewall step reported a success leaves its ruleset in force exactly when it already was, or the load was not refused with a text read as "already there" |
| FailClosed.FailClosedAlways | cmd/caspian/serve_priv.go:62-73 | over every run of those events, with any failure and any crash, some other change in force implies a ruleset loaded, as long as no start had its first load refused so with none in force |
| FailClosed.RefusedLoadLeavesTheBoxOpen | internal/netcfg/idempotence.go:97-115 | a load failing with "File exists" is reported as a success, with a change in force and no ruleset |
| Endings.StepDid | internal/netcfg/apply.go:165-212 | a step changes its side of the machine exactly when its begin record was written and its command landed |
| Endings.WroteFiles | internal/netcfg/apply.go:165-212 | whatever became of its two appends, a later load reads one entry of a step exactly when its begin record is legible, in the phase its legible records reached |
| Endings.ApplyFiles | internal/netcfg/apply.go:125-215 | whatever fails and wherever it dies, an apply adds to the journal one entry for each step reported as fine and, where it stopped, that step's entry exactly if its begin record is legible, live exactly when it has an inverse and is not legibly retracted |
| Restoration.RunStepStacks | internal/netcfg/apply.go:165-212 | after each step, recorded or not, finished or cut short, undoing the live entries newest first gives back the machine as it was found, unless the step left a live inverse for a change that was not made |
| Restoration.ReplayUnwinds | internal/netcfg/apply.go:340-428 | a replay with no failure leaves the machine that undoing the live entries gives, the ruleset removed if there was one on file |
| Restoration.TeardownRestores | internal/netcfg/apply.go:274-287 | after any applies, stopped anywhere by a command or a journal write, a teardown reporting no failure removes ruleset and journal and gives back the exact machine, unless an inverse was stranded, and then exactly when it is harmless |
| Restoration.RecoveryRestores | internal/netcfg/apply.go:289-309 | the same of a recovery after the process died at any effect of the applies |
| Retries.RecoverIsPart | internal/netcfg/apply.go:289-428 | however a recovery goes, it has run some of the inverses on file, newest first, and loaded no ruleset |
| Retries.RetriesRestore | internal/netcfg/apply.go:289-309 | after any number of recoveries cut short, one that finishes without a failure leaves the machine the journal leads to from theirs, which is the one found, with the same exception, where inverses may be repeated |
| Retries.CutAnywhere | internal/netcfg/apply.go:340-371 | for every number of inverses some crash cuts a recovery there, and the next runs those once more before it runs the others |
| Retries.OverwritesRepeat | internal/netcfg/apply.go:420-427 | inverses that write back values or take objects away, in any number and overlap, may be repeated |
| Reruns.RecoverLeaves | internal/netcfg/apply.go:289-428 | however a recovery ends, killed, unable to replace the file, or finished with anything failing, it has run some inverses newest first and taken off the file only such, the rest staying in their order |
| Reruns.RerunsRestore | internal/netcfg/apply.go:289-309 | after any number of recoveries, however each ended, one that reports no failure leaves no ruleset, nothing on file and the machine that what was left leads to, which is the one found, with the same exception, where the inverses settle |
| Reruns.LeadsBackExactly | internal/netcfg/apply.go:340-384 | for any journal and machine, recoveries of every kind always lead to one machine exactly when the inverses settle there: where they do not, some recoveries lead elsewhere |
| Reruns.OrderlessSettles | internal/netcfg/apply.go:340-384 | inverses that commute with one another and may be repeated settle |
| Reruns.OutOfOrder | internal/netcfg/apply.go:340-384 | with two on file and the newer refused once, two recoveries lead back exactly when the two commute on that machine |
| RestorationLimits.StrandedInverse | internal/netcfg/apply.go:165-212 | on any journal, a step that strands its inverse moved nothing; a teardown in which all succeeds runs that inverse and leads back exactly when it is harmless |
| RestorationLimits.LostRetraction | internal/netcfg/apply.go:183-200 | so it is where a change was found there already and the record retracting its inverse did not reach the file |
| RestorationLimits.UnflushedBegin | internal/netcfg/journal.go:137-160 | and where the begin record is in the file, but flushing it failed or the process died, so the step was never run |
| RestorationLimits.SomebodyElsesRoute | internal/netcfg/journal.go:137-160 | a route that was there before is then deleted, with no failure reported |
| RestorationLimits.RestoredIffNewline | internal/netcfg/apply.go:296-309 | over a journal recovery left alone, load and teardown remove the ruleset exactly when the file ended in a newline |
| SkipCache.SameKeySameText | internal/netcfg/recorder.go:48-87 | two ruleset loads have one key exactly when they load the same text |
| SkipCache.OneCall | internal/netcfg/apply.go:217-261 | with any append failing and a crash anywhere: a call that succeeds leaves its ruleset in force unless the load was refused as "already there" with another in force; one already answered runs nothing; the cache agrees afterwards exactly when the call did not make it stale |
| SkipCache.CallsKeepTheirWord | internal/netcfg/nftables.go:479-502 | over any sequence of load, cut and restore, the ruleset in force after each success is the one asked for, with the same exact exception, as long as no earlier call made the cache stale or left the file without its newline |
| SkipCache.OneCallSeveralRulesets | internal/netcfg/apply.go:217-261 | a call naming several, none reported as found there, ends with the last exactly when that one was not cached, or all are the cached one |
| SkipCache.CutAndRestoreInOneCall | internal/netcfg/apply.go:217-261 | with everything succeeding, another ruleset and then the cached one in one call: it succeeds, with the other in force |
| SkipCache.UnrecordedLoad | internal/netcfg/apply.go:209-215 | a load that landed, however its appends end, leaves the cache right exactly when its success is legible on file, or the cache named nothing or this |
| SkipCache.ApplyTwice | internal/netcfg/apply.go:125-261 | a plan of distinct resources applied twice, where what was found there still is, by its query or by how its command fails on that machine, leaves machine and live inverses as after the first time; the second call succeeds where it can write |
| SystemSocks.SystemSocksForPlan | internal/netcfg/system_socks.go:34-83 | accepted exactly when platform, endpoint and every measured service allow it, and then unchanged |
| SystemSocks.MergedBypass | internal/netcfg/system_socks.go:99-114 | the loop adds to the list what it lacks of the required names |
| SystemSocks.MergedMeans | internal/netcfg/system_socks.go:99-114 | the merged list starts with the old one, names all that is required, and is the old one iff nothing was missing |
| SystemSocks.DarwinSystemSocksSteps | internal/netcfg/system_socks.go:146-195 | the loop emits four steps a service, in order, or none when not enabled |
| SystemSocks.OneServiceRoundTrip | internal/netcfg/system_socks.go:116-195 | for one service and any prefix of its steps the inverses restore flag and endpoint, and the bypass list iff it is not the one-word empty list |
| SystemSocks.SocksRoundTrip | internal/netcfg/system_socks.go:146-195 | the same for any list of distinct services and any crash point, last step run or only begun; other services are untouched |
| SocksJournal.SocksRestored | internal/netcfg/system_socks.go:146-195 | the same of these steps applied through the journal, over any steps already on file whose inverses leave the settings alone, with any command or append failing and a crash anywhere, and then a recovery or teardown that reports no failure |
| Subnet.OverlapsIffShared | internal/netcfg/subnet.go:27-40 | two prefixes overlap exactly when some address lies in both (section 3.1 of RFC 4632) |
| Subnet.ChooseSubnet | internal/netcfg/subnet.go:80-99 | the first prefix of the pool that overlaps nothing taken, masked; none exactly when all clash |
| Subnet.ChosenIsFree | internal/netcfg/subnet.go:80-99 | a chosen prefix shares no address with anything taken |
| Subnet.GatewayAndPeer | internal/netcfg/subnet.go:101-129 | which prefixes have a gateway and a peer, and that they are the first and second address after the network's, inside it |
| Subnet.OccupiedPrefixes | internal/netcfg/facts.go:520-533 | every link's networks, then every gateway as a network of one |
| Subnet.PlanSubnets | internal/netcfg/plan.go:475-528 | the tunnel clear of everything occupied and of the hotspot, the hotspot too unless by hand, addresses distinct and inside; refused exactly when there is no room |
| Nftables.RulesetFor | internal/netcfg/nftables.go:58-288 | the chains built under their branches are those the meaning lemmas are about |
| Nftables.WriteRestrictedOutput | internal/netcfg/nftables.go:349-455 | the chain written rule by rule, one rule a server, is the one the meaning lemmas are about |
| Nftables.ForwardMeaning | internal/netcfg/nftables.go:149-231 | for every plan and packet, forwarded iff tunnelled IPv4 of the subnet and not refused by a drop before it |
| Nftables.ForwardOnlyTunnelled | internal/netcfg/nftables.go:149-231 | with three different interfaces, exactly which packets are forwarded |
| Nftables.UplinkNameIrrelevant | internal/netcfg/nftables.go:149-231 | the forwarded set does not depend on the uplink's name, in either state |
| Nftables.CutForwardsNothing | internal/netcfg/nftables.go:186-203 | a cut forwards nothing, whatever the names |
| Nftables.CutChangesOnlyForwarding | internal/netcfg/nftables.go:48-57 | the cut leaves every other chain alone, and treats differently exactly the packets that were forwarded |
| Nftables.StripInterfaceRules | internal/netcfg/nftables.go:302-316 | the loop keeps exactly the rules that do not name the interface, in order |
| Nftables.NothingForwardedWithoutTunnel | internal/netcfg/nftables.go:302-316 | with every rule naming the tunnel taken out, no packet is forwarded, in either state and whatever the names |
| Nftables.InputMeaning | internal/netcfg/nftables.go:98-147 | exactly which packets reach the box, the hotspot's only for services it offers |
| Nftables.ClientDnsIsAnsweredHere | internal/netcfg/nftables.go:257-268 | a client's port 53 query, to any resolver, is redirected to the box and let in |
| Nftables.RestrictedOutputMeaning | internal/netcfg/nftables.go:349-455 | exactly what the box itself may send with egress restricted |
| Nftables.OpenOutputMeaning | internal/netcfg/nftables.go:235-252 | with egress open, everything but a router advertisement on the hotspot |
| Nftables.AdvertStays | internal/netcfg/nftables.go:244-252 | exactly when an advertisement leaves by the hotspot, in both modes |
| Nftables.MasqueradeOnlyToTunnel | internal/netcfg/nftables.go:270-285 | source translation exactly when enabled and towards the tunnel |
| Combination.Has | internal/netcfg/facts.go:336-344 | a group covers a type exactly when it lists it in some case |
| Combination.Assign | internal/netcfg/facts.go:382-399 | the backtracking search succeeds exactly when an assignment fits what is left, and restores the counters when it fails |
| Combination.Allows | internal/netcfg/facts.go:371-400 | true exactly when the list is within the total and some assignment of types to groups covering them respects every maximum |
| Combination.FirstPlace | internal/netcfg/facts.go:387-396 | putting the first type in a group leaves the same problem with one place less there |
| Combination.OneGroupIsATotal | internal/netcfg/facts.go:362-370 | a group's maximum is a total across its types and not a permission for each |
| Radio.BandOfChannel | internal/netcfg/facts.go:295-310 | the band of the first frequency the radio lists for a channel |
| Radio.UsableChannelsIn | internal/netcfg/facts.go:312-328 | the usable channels of a band, sorted, each as often as listed |
| Radio.FirstIsLowest | internal/netcfg/facts.go:312-328 | the first is the lowest usable channel the radio reports in the band; none only if it reports none |
| Radio.APWithStation | internal/netcfg/facts.go:412-424 | whether some combination allows both, and whether the first that does has one channel |
| Radio.PrimaryDefault | internal/netcfg/facts.go:480-516 | the route of lowest metric that carries, first listed among equals; none only if none carries |
| Ladder.ApCandidates | internal/netcfg/plan.go:946-986 | the nested loops compute one candidate per radio that supports an access point |
| Ladder.CandidatesApart | internal/netcfg/plan.go:936-986 | where the uplink is on a radio it is the link not to disturb, so it is never taken for a free interface |
| Ladder.PreferUSB | internal/netcfg/plan.go:886-901 | the first USB adapter, or else the first |
| Ladder.ChooseRadio | internal/netcfg/plan.go:608-742 | the candidate of least rank, USB first, list order last; no refusal naming a blocked adapter can happen; conflict exactly when all are blocked |
| Planner.Plan.ChooseChannel | internal/netcfg/plan.go:780-801 | the lowest usable channel of the band asked for, refused exactly when there is none; without a band 2.4 GHz first |
| Planner.Plan.RefuseBandAgainstPin | internal/netcfg/plan.go:803-829 | a pin is refused exactly when its band is not the one asked for |
| Planner.Plan.AcceptHotspot | internal/netcfg/plan.go:990-1169 | accepted exactly when name, radio and channel allow it, and then every field of the access point |
| Planner.Plan.TakeOver | internal/netcfg/plan.go:849-878 | the link's own interface, not pinned, no fallback |
| Planner.Plan.ChooseHotspot | internal/netcfg/plan.go:581-742 | the radio named by hand, first listed, or else the best by rank; refused exactly when there is none or that one is not acceptable |
| Planner.ChooseUplink | internal/netcfg/plan.go:437-463 | the default route in use, or the first route of the interface named by hand |
| Planner.PinServers | internal/netcfg/plan.go:530-559 | the valid servers, those with no route to pin, and that some server is left |
| Planner.PlanNetwork | internal/netcfg/plan.go:414-561 | every plan has its uplink, access point, addresses, servers and proxy settings as promised by these parts; refused exactly for a bad tunnel name, proxy settings that could not be put back, no uplink, no acceptable radio, no room or no server to pin |
| Planner.StaysLocal | internal/netcfg/plan.go:744-766 | of an interface used as it is, exactly the addresses come off that are not local and not in the hotspot's own range |
| Planner.HotspotApart | internal/netcfg/plan.go:990-1169 | the access point is on the uplink exactly on Windows sharing it, or where the created interface has the uplink's name |
| Planner.PlanKeepsUplink | internal/netcfg/plan.go:1058-1074 | off Windows, and with another name for the created interface, neither the hotspot nor its fallback is the uplink |
| Planner.PlanHonoursBand | internal/netcfg/plan.go:1090-1127 | a plan for a band has the radio's lowest usable channel in it, or is pinned to a joined link in it; pinned iff one channel and really joined |
| Planner.HotspotTakeover | internal/netcfg/plan.go:1237-1339 | possible exactly when the fallback can be shown free or released; the new plan differs only in interface, channel and the addresses to come off, which are all that are not local; the old one is untouched |
| Planner.TakeoverKeepsUplink | internal/netcfg/plan.go:1237-1339 | a takeover stays off the uplink; its channel is the radio's lowest usable one in any band |
| TailPatterns.PrefixFacts | internal/engine/redact.go:102-114 | how a match of either pattern opens and ends, and that none opens inside another |
| TailPatterns.LongerPrefix | internal/engine/redact.go:102-114 | a match has one value |
| Redact.FindIs | internal/engine/redact.go:152-156 | the search finds the leftmost match, or there is none |
| Redact.MatchSurvives | internal/engine/redact.go:150-168 | a match after a stretch was masked was a match before, wholly on one side of the mask |
| Redact.TailSettles | internal/engine/redact.go:150-162 | masking the leftmost match's value leaves every match of that pattern with a mask for its value |
| Redact.TailsSettle | internal/engine/redact.go:142-145 | after both tail steps both patterns are settled |
| Redaction.RedactMessage | internal/engine/redact.go:80-100 | lines and segments rewritten in place give the message the results below are about |
| Redaction.RunsGone | internal/engine/redact.go:140-148 | after the last step no run of 32 or more base64url characters is left |
| Redaction.NothingLeft | internal/engine/redact.go:80-187 | for every message, no UUID (section 4 of RFC 9562) and no base64url run (section 5 of RFC 4648) of 32 or more is left |
| Redaction.SplitJoin | internal/engine/redact.go:84-99 | splitting what was joined gives the pieces back where no separator is begun in one and finished by the next |
| Redaction.SegmentDone | internal/engine/redact.go:142-148 | a redacted segment stays as it is and separates as before |
| Redaction.Idempotent | internal/engine/redact.go:11-15 | for every message without a marker, redacting twice is redacting once, across lines and segments |
| RedactionLimits.MarkerHidesAKey | internal/engine/redact.go:150-162 | a message with a marker, for any 32 digits, on which redacting twice is not redacting once |
| Engine.Engine.CaptureTunHold | internal/engine/tundevice.go:118-136 | every configured name that exists, with its index, and the descriptors not open before |
| Engine.Engine.RemoveTunDevice | internal/engine/tundevice.go:167-192 | a device is deleted only under its recorded index, and success means it is gone |
| Engine.Engine.Release | internal/engine/tundevice.go:138-165 | every device, then every descriptor, past every failure; no error exactly when each device was gone after its turn and every descriptor closed |
| Engine.CleanIsGone | internal/engine/tundevice.go:138-165 | a release without error has left none of the recorded devices and descriptors |
| Engine.Engine.Start | internal/engine/engine.go:222-248 | the new state for every failure; it succeeds exactly when the engine is then running |
| Engine.Engine.BuildAndStart | internal/engine/engine.go:250-302 | an instance and its hold, or everything released, for failure at load, construction, cancellation or start |
| Engine.Engine.Stop | internal/engine/engine.go:335-368 | stopped, nothing held, what was held released, whatever is reported; no error exactly when closing and releasing had none |
| Engine.AlwaysConsistent | internal/engine/engine.go:222-368 | over any calls with any failures, running exactly while an instance is held |
| Engine.FailedStart | internal/engine/engine.go:272-302 | a failed start leaves the links as they were exactly when no interface of a configured name existed; descriptors always |
| Engine.NothingLeaks | internal/engine/engine.go:222-368 | over any calls with names free and deletion working, devices and descriptors beyond the machine's own are exactly the running instance's |
| Engine.SomebodyElsesDevice | internal/engine/tundevice.go:118-136 | an interface that was there is deleted by a start the core refuses |
| Supervisor.Supervisor.Terminate | internal/hotspot/supervisor.go:394-425 | success means the process was seen dead or killed |
| Supervisor.Supervisor.LivePID | internal/hotspot/supervisor.go:458-478 | the pid of the file if live; otherwise the one it names was seen dead |
| Supervisor.Supervisor.StartProcess | internal/hotspot/supervisor.go:261-328 | every spawn safe; nothing done where the unit lives unchanged; what it leaves serves the wanted configuration exactly when that changed, or the daemon was not found live, or it served it before |
| Supervisor.Supervisor.WriteIfChanged | internal/hotspot/supervisor.go:484-496 | success means the file holds the content, changed iff it did not before |
| Supervisor.Supervisor.Start | internal/hotspot/supervisor.go:80-135 | every spawn on record had its configuration on disk, no pid file and its predecessor gone; with both daemons live and both files as planned nothing is written, signalled or spawned, whatever fails; each daemon left serves the plan exactly when its file differed, it was gone when looked for, or it served the plan before |
| Supervisor.Supervisor.Stop | internal/hotspot/supervisor.go:150-196 | success means no pid file, no configuration and no process a pid file named; the radio last |
| Supervisor.Supervisor.EnsureRadioUnblocked | internal/hotspot/supervisor.go:510-566 | when a block is cleared, whose is remembered, and exactly when it is refused: hard blocked, an unblock that fails, or one that a second reading shows did nothing |
| Supervisor.Supervisor.ReblockRadio | internal/hotspot/supervisor.go:615-674 | the remembered blocks put back where nothing blocks now, and forgotten; a success exactly when both readings worked, no block failed and none of ours is left on |
| Supervisor.StaleDaemonIsKept | internal/hotspot/supervisor.go:267-280 | after a start that wrote a new configuration and could not stop the old daemon, a second start succeeds, does nothing, and the old configuration is still served |
| Supervisor.SpawnIsSafe | internal/hotspot/supervisor.go:261-300 | a spawn under those conditions keeps the whole record safe |
| Supervisor.RadioRoundTrip | internal/hotspot/supervisor.go:510-674 | a start then a stop leave every soft block as found exactly when none was cleared, or clearing was reported, read back, and each block put back by a command that acted |
| Supervisor.ReportedPutBack | internal/hotspot/supervisor.go:615-674 | where the start remembered what it cleared, a stop that reports success has put everything back, blocks that only pretend to act included |
| Supervisor.StartThenStop | internal/hotspot/supervisor.go:80-196 | the same of the two calls on a fresh supervisor, whatever the processes do |
| Link.FlattenKeepsDialled | internal/link/xrayjson.go:187-346 | flattening keeps address, port and account the engine dials, a flat address winning, and leaves the flat form the one place to read; what it refuses the engine would not dial |
| Link.ProxyOutboundOf | internal/link/xrayjson.go:121-147 | the first outbound tagged proxy in a proxy protocol, or else the first in one, by tag and protocol alone; then refused if the rest of it does not decode |
| Link.Link.FillIn | internal/link/link.go:256-297 | every check and correction in order: the description, the corrected outbound, or the error |
| Link.Link.RequireTLSForTrojan | internal/link/link.go:329-341 | a trojan outbound is left with some security, TLS if it had none; a secured one and other protocols are left alone |
| Link.Link.FillMissingServerName | internal/link/link.go:422-436 | a TLS stream is left with a server name, its own where it has one and else the address; anything else is left alone |
| Link.NeverInTheClear | internal/link/link.go:299-436 | a trojan link that parsed always names some security, TLS where it asked for none, and is dialled in the clear exactly when it came with a name only the engine reads as none; whatever is shown as TLS is TLS and names its server, by its own name or the address |
| Link.NameReadAsNone | internal/link/link.go:299-341 | a trojan outbound under any name that only the engine reads as none is taken as it is |
| Link.Link.ThroughLoopback | internal/link/forward.go:15-58 | the redirected document parsed again, or the error, for every link and endpoint |
| Link.LoopbackKeeps | internal/link/forward.go:13-58 | for every link that parsed, the redirect succeeds and changes address and port only: protocol, transport, security, flow and server name stay |
| Link.LoopbackDials | internal/link/forward.go:30-35 | the engine then dials the endpoint with the real server's account |

## Left out

- Running commands, reading the machine, clocks, locks and the network: they are the environments, kernels, attempts and rules that the results hold for all of.
- Text of journal records, timestamps, reasons and notes; a line decodes or it does not. Lines over the reader's 8 MB limit and failures to create the directory are not modelled.
- The digest of standard input is taken to be injective, and is the text itself.
- Case folding beyond ASCII, except the two letters the redactor's patterns fold to k and s.
- A command that lands in part: a change lands or it does not.
- The report of a step: no reasons or standard error.
- `Journal` as an object of its own: its file and counter are fields of the applier.
- After an apply that failed, the run model allows only a teardown; after a teardown or recovery that failed, only a restart.
- Restoration.TeardownRestores: asks that each change that landed is taken back by its inverse on the machine it was made on, and that a removal reported as finding nothing would have changed nothing.
- Retries.RetriesRestore: is about recoveries that leave the file as it was; `Reruns.RerunsRestore` is about all of them.
- SocksJournal.SocksRestored: asks that no inverse already on file touches the settings and that no SOCKS command is recorded there as done.
- The hold on the firewall's inverse is for nft entries only, as in the source; macOS steps for pf are outside it.
- Nftables.StripInterfaceRules: filters rules by the interfaces they name, where the source filters lines of text; ruleset text and comments are not modelled, so a comment spelled like an interface is not either.
- Interface name rules, which are two parameters of the planner; whether a listener's address is a loopback one; notes.
- Redaction.Idempotent: one way only; some messages with a marker are redacted once and for all, too.
- Texts are sequences of characters, not of bytes that may not decode, and messages are up to 2^63 - 1 characters, the longest there can be.
- The grace period in RemoveTunDevice is one answer of the kernel, gone or lingering.
- Radios that come and go between two readings; beaconing, leases and status.
- JSON itself: outbounds start decoded, and a document written and read again is the same outbound. Removing nulls from a document, share links, Clash and base64 inputs, and the list of entries in a pasted text.
- Windows filters and Mobile Hotspot, the hostapd and dnsmasq templates, the log ring, validators of ids and keys: easy members or templates.
